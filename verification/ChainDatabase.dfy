/** The block tree and its reorganisation: store_and_index, the two recursive marks, pop_block,
    extend_chain, switch_to_fork and push_block. */
module ChainStore {
  import opened ForkTree
  import opened Options

  datatype Header = Header(num: nat, previous: BlockId)

  class ChainDatabase<L(!new, ==), U(!new, ==)> {
    const rules: Rules<L, U>
    const maxUndo: nat
    var blocks: Blocks
    var fork: ForkDb
    var numToId: map<nat, BlockId>
    var headId: BlockId
    var header: Header
    var ledger: L
    var undo: map<BlockId, U>
    /** The highest number a head has had. */
    ghost var reached: nat

    constructor (rules: Rules<L, U>, maxUndo: nat)
      requires maxUndo >= 1 && Lawful(rules)
      ensures this.rules == rules && this.maxUndo == maxUndo
      ensures Consistent() && blocks == map[] && headId == GENESIS && reached == 0 && FirstBlocksRefused(rules, blocks, headId)
    {
      this.rules, this.maxUndo := rules, maxUndo;
      blocks, numToId, undo := map[], map[], map[];
      fork := map[GENESIS := ForkData({}, true, Some(true), true, true)];
      headId, header, ledger := GENESIS, Header(0, GENESIS), rules.genesis;
      reached := 0;
    }

    ghost predicate TreeInv()
      reads this
    {
      WellFormed(blocks) && Indexed(blocks, fork)
    }

    // ---------- marking a subtree ----------

    /** The inner loop of recursive_mark_as_linked: one generation. The generation is numbered above
        `highest`, so its first member visited becomes the longest fork. */
    method MarkGenerationLinked(ids: set<BlockId>, ghost level: nat, highest: nat)
      returns (pending: set<BlockId>, lastId: BlockId, longest: ForkData)
      requires ids != {} && highest < level
      requires forall x :: x in ids ==> x in fork && x in blocks && blocks[x].num == level
      requires forall x :: x in ids ==> fork[x].next == Children(blocks, x)
      modifies this`fork
      ensures fork == MarkThese(old(fork), ids, Link)
      ensures pending == set c | c in blocks && blocks[c].previous in ids
      ensures lastId in ids && longest == fork[lastId]
    {
      pending, lastId, longest := {}, GENESIS, EMPTY_FORK;
      var todo, top := ids, highest;
      while todo != {}
        invariant todo <= ids
        invariant forall c :: c in pending <==> c in blocks && blocks[c].previous in ids - todo
        invariant fork == MarkThese(old(fork), ids - todo, Link)
        invariant top == if todo == ids then highest else level
        invariant todo != ids ==> lastId in ids - todo && longest == fork[lastId]
        decreases todo
      {
        var item :| item in todo;
        var record := Link(fork[item]);
        pending := pending + record.next;
        fork := fork[item := record];
        if blocks[item].num > top {
          top, lastId, longest := blocks[item].num, item, record;
        }
        todo := todo - {item};
      }
    }

    /** Marks every proper descendant of root linked, generation by generation, and returns one with
        the greatest block number. */
    method RecursiveMarkAsLinked(ids: set<BlockId>, ghost root: BlockId) returns (lastId: BlockId, longest: ForkData)
      requires WellFormed(blocks) && (root == GENESIS || root in blocks)
      requires forall x :: x in blocks ==> x in fork && fork[x].next == Children(blocks, x)
      requires ids == Children(blocks, root)
      modifies this`fork
      ensures fork == MarkBelow(blocks, old(fork), root, Link)
      ensures ids == {} ==> lastId == GENESIS && longest == EMPTY_FORK
      ensures ids != {} ==> Below(blocks, root, lastId) && lastId in fork && longest == fork[lastId]
      ensures ids != {} ==> forall x :: Below(blocks, root, x) ==> Num(blocks, x) <= Num(blocks, lastId)
    {
      longest, lastId := EMPTY_FORK, GENESIS;
      var highest: nat := 0;
      var next := ids;
      ghost var level := Num(blocks, root) + 1;
      FirstLevel(blocks, root);
      assert next == AtLevel(blocks, root, level);
      while next != {}
        invariant level > Num(blocks, root) && highest < level
        invariant next == AtLevel(blocks, root, level)
        invariant MarkedUpTo(blocks, old(fork), fork, root, level, Link)
        invariant level == Num(blocks, root) + 1 ==> next == ids && lastId == GENESIS && longest == EMPTY_FORK
        invariant level > Num(blocks, root) + 1 ==>
          ids != {} && Below(blocks, root, lastId) && blocks[lastId].num == level - 1 && longest == fork[lastId]
        decreases AtOrAbove(blocks, level)
      {
        MarkOneLevel(blocks, old(fork), fork, root, level, Link);
        StillLists(blocks, old(fork), fork, root, level, Link);
        next, lastId, longest := MarkGenerationLinked(next, level, highest);
        highest := blocks[lastId].num;
        NextLevel(blocks, root, level);
        AtOrAboveShrinks(blocks, level, lastId);
        level := level + 1;
      }
      MarkedAll(blocks, old(fork), fork, root, level, Link);
    }

    /** The inner loop of recursive_mark_as_invalid: one generation. */
    method MarkGenerationInvalid(ids: set<BlockId>) returns (pending: set<BlockId>)
      requires forall x :: x in ids ==> x in fork && fork[x].next == Children(blocks, x)
      modifies this`fork
      ensures fork == MarkThese(old(fork), ids, Invalidate)
      ensures pending == set c | c in blocks && blocks[c].previous in ids
    {
      pending := {};
      var todo := ids;
      while todo != {}
        invariant todo <= ids
        invariant forall c :: c in pending <==> c in blocks && blocks[c].previous in ids - todo
        invariant fork == MarkThese(old(fork), ids - todo, Invalidate)
        decreases todo
      {
        var item :| item in todo;
        var record := Invalidate(fork[item]);
        pending := pending + record.next;
        fork := fork[item := record];
        todo := todo - {item};
      }
    }

    method RecursiveMarkAsInvalid(ids: set<BlockId>, ghost root: BlockId)
      requires WellFormed(blocks) && (root == GENESIS || root in blocks)
      requires forall x :: x in blocks ==> x in fork && fork[x].next == Children(blocks, x)
      requires ids == Children(blocks, root)
      modifies this`fork
      ensures fork == MarkBelow(blocks, old(fork), root, Invalidate)
    {
      var next := ids;
      ghost var level := Num(blocks, root) + 1;
      FirstLevel(blocks, root);
      assert next == AtLevel(blocks, root, level);
      while next != {}
        invariant level > Num(blocks, root)
        invariant next == AtLevel(blocks, root, level)
        invariant MarkedUpTo(blocks, old(fork), fork, root, level, Invalidate)
        decreases AtOrAbove(blocks, level)
      {
        ghost var item :| item in next;
        MarkOneLevel(blocks, old(fork), fork, root, level, Invalidate);
        StillLists(blocks, old(fork), fork, root, level, Invalidate);
        next := MarkGenerationInvalid(next);
        NextLevel(blocks, root, level);
        AtOrAboveShrinks(blocks, level, item);
        level := level + 1;
      }
      MarkedAll(blocks, old(fork), fork, root, level, Invalidate);
    }

    method MarkInvalid(id: BlockId)
      requires WellFormed(blocks) && Keyed(blocks, fork) && id in blocks
      modifies this`fork
      ensures fork == MarkBelow(blocks, old(fork), id, Invalidate)[id := Invalidate(old(fork)[id])]
    {
      fork := fork[id := Invalidate(fork[id])];
      RecursiveMarkAsInvalid(fork[id].next, id);
      NotBelowItself(blocks, id);
    }

    method MarkIncluded(id: BlockId, included: bool)
      requires id in fork
      modifies this`fork
      ensures fork == old(fork)[id := if included then Include(old(fork)[id]) else old(fork)[id].(included := false)]
    {
      var data := fork[id].(included := included);
      if included {
        data := data.(validity := Some(true));
      }
      fork := fork[id := data];
    }

    // ---------- storing a block ----------

    /** Records b, hooks it to its parent (or to a placeholder for it), and, when b supplies a
        missing link, marks the subtree that was waiting. */
    method StoreAndIndex(b: Block) returns (lastId: BlockId, longest: ForkData)
      requires TreeInv() && Storable(blocks, b)
      modifies this`blocks, this`fork
      ensures blocks == old(blocks)[b.id := b] && TreeInv()
      ensures lastId in blocks && longest == fork[lastId]
      ensures PointsAt(blocks, old(fork), b, lastId)
      ensures Unjudged(old(fork), b, fork)
    {
      ghost var was := blocks;
      NotItsOwnParent(blocks, b);
      ParentUnmoved(blocks, b);
      blocks := blocks[b.id := b];
      var prevData := HookToParent(b);
      var current := EMPTY_FORK.(known := true);
      if b.id in fork {
        current := fork[b.id];
        if !current.linked && prevData.linked {
          current := current.(linked := true);
          HookedListsChildren(was, old(fork), b);
          lastId, longest := RecursiveMarkAsLinked(current.next, b.id);
          fork := fork[b.id := current];
          NotBelowItself(blocks, b.id);
          FilledTree(was, old(fork), b, fork);
          return;
        }
      } else {
        current := current.(linked := prevData.linked);
      }
      fork := fork[b.id := current];
      EntryTree(was, old(fork), b, current, fork);
      return b.id, current;
    }

    /** Adds b to its parent's next_blocks, making a placeholder entry for an unknown parent. */
    method HookToParent(b: Block) returns (prevData: ForkData)
      requires GENESIS in fork
      modifies this`fork
      ensures fork == HookParent(old(fork), b) && prevData == fork[b.previous]
    {
      if b.previous in fork {
        prevData := fork[b.previous];
        prevData := prevData.(next := prevData.next + {b.id});
      } else {
        assert {} + {b.id} == {b.id};
        prevData := EMPTY_FORK.(next := {b.id}, linked := b.previous == GENESIS);
      }
      fork := fork[b.previous := prevData];
    }

    // ---------- the state of the main chain ----------

    /** Everything but the cached head header: flags, number index, ledger and undo records all
        belong to the chain ending in headId, and the records kept of it are those of its upper end. */
    ghost predicate Aligned()
      reads this
    {
      maxUndo >= 1 && AlignedTo(rules, blocks, fork, numToId, headId, ledger, undo, reached, maxUndo)
    }

    ghost predicate HeaderRight()
      reads this
    {
      header == if headId in blocks then Header(blocks[headId].num, blocks[headId].previous) else Header(0, GENESIS)
    }

    ghost predicate Consistent()
      reads this
    {
      Aligned() && HeaderRight()
    }

    /** Aligned, but the header may still be that of a popped first block. */
    ghost predicate Ready()
      reads this
    {
      Aligned() && (HeaderRight() || (headId == GENESIS && header.num == 1))
    }

    /** A head that was unflagged but could not be undone. */
    ghost predicate Stuck()
      reads this
    {
      TreeInv() && headId in blocks && headId !in undo && header.num != 0 && !fork[headId].included
    }

    /** Everything rewound to genesis except the header, still that of the first block. */
    ghost predicate Rewound()
      reads this
    {
      headId == GENESIS && Ready() && !HeaderRight()
    }

    // ---------- pop and extend ----------

    /** Undoes the head block. Fails, after unflagging the head, when its undo record is gone, and,
        after undoing it, when its parent has no block record, as genesis has none. */
    method PopBlock() returns (ok: bool)
      requires Consistent() || Stuck()
      modifies this`fork, this`numToId, this`ledger, this`headId, this`header
      ensures old(Stuck()) ==> !ok && Stuck() && headId == old(headId)
      ensures old(Consistent() && headId == GENESIS) ==> ok && Consistent() && headId == GENESIS
      ensures old(Consistent() && headId in blocks && headId !in undo) ==> !ok && Stuck() && headId == old(headId)
      ensures old(Consistent() && headId in blocks && headId in undo) ==>
        && headId == blocks[old(headId)].previous
        && (if headId == GENESIS then !ok && Rewound() else ok && Consistent())
    {
      if header.num == 0 {
        return true;
      }
      if headId in undo {
        AlignedPop(rules, blocks, fork, numToId, headId, ledger, undo, reached, maxUndo);
      }
      IndexedRejudge(blocks, fork, fork[headId := fork[headId].(included := false)]);
      MarkIncluded(headId, false);
      numToId := numToId - {header.num};
      if headId !in undo {
        return false;
      }
      ok := RestoreParent();
    }

    /** The end of pop_block: apply the undo record and move to the parent, whose record supplies the
        header. */
    method RestoreParent() returns (ok: bool)
      requires headId in undo
      modifies this`ledger, this`headId, this`header
      ensures ledger == rules.revert(old(ledger), undo[old(headId)]) && headId == old(header.previous)
      ensures ok <==> headId in blocks
      ensures header == if ok then Header(blocks[headId].num, blocks[headId].previous) else old(header)
    {
      ledger := rules.revert(ledger, undo[headId]);
      headId := header.previous;
      if headId !in blocks {
        return false;
      }
      header := Header(blocks[headId].num, blocks[headId].previous);
      return true;
    }

    /** What extend_chain checks of the numbers holds of every child of the head. */
    lemma ChecksPass(b: Block)
      requires Ready() && b.id in blocks && blocks[b.id] == b
      ensures b.previous == headId && b.num > 1 ==> b.num == header.num + 1
      ensures header.num > maxUndo ==> header.num - maxUndo in numToId
    {
      PathFacts(blocks, headId);
      if b.previous == headId {
        ChildReaches(blocks, b.id);
      }
    }

    method ExtendChain(b: Block) returns (ok: bool)
      requires Ready() && b.id in blocks && blocks[b.id] == b
      modifies this`fork, this`numToId, this`ledger, this`headId, this`header, this`undo, this`reached
      ensures ok <==> b.previous == old(headId) && rules.apply(old(ledger), b).Some?
      ensures ok ==> Consistent() && headId == b.id && fork[b.id].validity == Some(true)
      ensures ok ==> undo == old(undo)[b.id := rules.apply(old(ledger), b).value.1] - old(Expired(numToId, header.num, maxUndo))
      ensures ok ==> reached == Higher(old(reached), b.num)
      ensures !ok ==>
        && Ready() && ledger == old(ledger) && headId == old(headId) && header == old(header)
        && numToId == old(numToId) && undo == old(undo) && reached == old(reached)
        && fork == MarkBelow(blocks, old(fork), b.id, Invalidate)[b.id := Invalidate(old(fork)[b.id])]
    {
      ChecksPass(b);
      var applied := None;
      if (b.num > 1 ==> b.num == header.num + 1) && b.previous == headId {
        applied := rules.apply(ledger, b);
      }
      if applied.None? || (header.num > maxUndo && header.num - maxUndo !in numToId) {
        Refuse(b.id);
        return false;
      }
      Commit(b, applied.value.0, applied.value.1);
      return true;
    }

    /** The end of extend_chain: save the undo record, dropping the one that is maxUndo blocks old,
        commit the ledger, and make b the head. */
    method Commit(b: Block, applied: L, record: U)
      requires Ready() && b.id in blocks && blocks[b.id] == b && b.previous == headId
      requires rules.apply(ledger, b) == Some((applied, record))
      requires header.num > maxUndo ==> header.num - maxUndo in numToId
      modifies this`fork, this`numToId, this`ledger, this`headId, this`header, this`undo, this`reached
      ensures Consistent() && headId == b.id && fork[b.id].validity == Some(true)
      ensures undo == old(undo)[b.id := record] - old(Expired(numToId, header.num, maxUndo))
      ensures reached == Higher(old(reached), b.num)
    {
      AlignedExtend(rules, blocks, fork, numToId, headId, ledger, undo, reached, maxUndo, b, header.num);
      SaveUndo(b.id, record);
      MoveHead(b, applied);
      reached := Higher(reached, b.num);
    }

    method MoveHead(b: Block, applied: L)
      requires b.id in fork
      modifies this`fork, this`numToId, this`ledger, this`headId, this`header
      ensures fork == old(fork)[b.id := Include(old(fork)[b.id])] && numToId == old(numToId)[b.num := b.id]
      ensures ledger == applied && headId == b.id && header == Header(b.num, b.previous)
    {
      ledger := applied;
      MarkIncluded(b.id, true);
      headId := b.id;
      header := Header(b.num, b.previous);
      numToId := numToId[b.num := b.id];
    }

    /** Saves an undo record and drops the one that is maxUndo blocks old. */
    method SaveUndo(id: BlockId, record: U)
      requires header.num > maxUndo ==> header.num - maxUndo in numToId
      modifies this`undo
      ensures undo == old(undo)[id := record] - Expired(numToId, header.num, maxUndo)
    {
      undo := undo[id := record];
      if header.num > maxUndo {
        undo := undo - {numToId[header.num - maxUndo]};
      } else {
        assert undo == undo - {};
      }
    }

    /** The catch block of extend_chain: mark and rethrow. */
    method Refuse(id: BlockId)
      requires Ready() && id in blocks
      modifies this`fork
      ensures Ready()
      ensures fork == MarkBelow(blocks, old(fork), id, Invalidate)[id := Invalidate(old(fork)[id])]
    {
      AlignedRefuse(rules, blocks, fork, numToId, headId, ledger, undo, reached, maxUndo, id);
      MarkInvalid(id);
    }

    // ---------- reorganisation ----------

    /** Walks back from id to the first included ancestor, or genesis; None when a header is missing or
        the walk leaves the linked blocks. */
    method GetForkHistory(id: BlockId) returns (r: Option<seq<BlockId>>)
      requires TreeInv()
      ensures id !in blocks ==> r.None?
      ensures r.Some? ==> |r.value| >= 2 && (Last(r.value) == GENESIS || (Last(r.value) in fork && fork[Last(r.value)].included))
      ensures id != GENESIS && Reaches(blocks, id) && MainChain(blocks, fork, numToId, headId) ==>
        var f := ForkPoint(blocks, headId, id);
        r.Some? && BackTo(r.value, Path(blocks, id), Num(blocks, f))
    {
      var history := [id];
      var next := id;
      ghost var tracked := id != GENESIS && Reaches(blocks, id) && MainChain(blocks, fork, numToId, headId);
      if tracked {
        PathFacts(blocks, id);
      }
      while true
        invariant |history| >= 1
        invariant |history| == 1 ==> next == id
        invariant tracked ==> Walked(blocks, headId, id, next, history)
        decreases Num(blocks, next)
      {
        if next !in blocks {
          return None;
        }
        if tracked {
          WalkStep(blocks, headId, id, next, history);
        }
        var previous := blocks[next].previous;
        history := history + [previous];
        if previous == GENESIS {
          return Some(history);
        }
        if previous !in fork || !fork[previous].linked {
          return None;
        }
        if fork[previous].included {
          return Some(history);
        }
        next := previous;
      }
    }

    /** One turn of the pop loop of switch_to_fork, on the way from start to target. */
    method PopTowards(ghost start: BlockId, ghost target: BlockId) returns (ok: bool)
      requires (Consistent() && PoppedDown(blocks, undo, start, headId, target) && headId != target) || Stuck()
      modifies this`fork, this`numToId, this`ledger, this`headId, this`header
      ensures old(Stuck()) ==> !ok && Stuck() && headId == old(headId)
      ensures old(Consistent()) && ok ==>
        && Consistent() && headId != GENESIS && PoppedDown(blocks, undo, start, headId, target)
        && Num(blocks, headId) < Num(blocks, old(headId))
      ensures old(Consistent()) && !ok ==>
        if AllUndo(blocks, undo, start, Num(blocks, target)) then target == GENESIS && Rewound()
        else Stuck() && headId == HighestGap(blocks, undo, start)
    {
      if Consistent() {
        PopDown(blocks, undo, start, headId, target);
      }
      ok := PopBlock();
    }

    /** The pop loop of switch_to_fork. It gets to `target` when every block above it has its undo
        record and a parent record; it gets stuck at the highest missing undo record; and if only
        genesis' missing record stops it, all but the header has been rewound to genesis. */
    method PopTo(target: BlockId) returns (ok: bool)
      requires (Ready() && target in Path(blocks, headId)) || (Stuck() && target != headId)
      modifies this`fork, this`numToId, this`ledger, this`headId, this`header
      ensures old(Stuck()) ==> !ok && Stuck() && headId == old(headId)
      ensures old(Ready()) ==>
        if !old(AllUndo(blocks, undo, headId, Num(blocks, target)))
        then !ok && Stuck() && headId == old(HighestGap(blocks, undo, headId))
        else if target == GENESIS != old(headId) then !ok && Rewound()
        else ok && headId == target && if target == old(headId) then Ready() && header == old(header) else Consistent()
      ensures ok ==> Ready() && (old(HeaderRight()) ==> HeaderRight())
    {
      ghost var ready := Ready();
      ghost var start := headId;
      if ready {
        PoppedNone(blocks, undo, start, target);
      }
      while target != headId
        invariant !ready ==> Stuck() && target != headId == start
        invariant ready ==> PoppedDown(blocks, undo, start, headId, target)
        invariant ready && headId == start ==> Ready() && header == old(header)
        invariant ready && headId != start ==> Consistent() && headId != GENESIS
        decreases if ready then Num(blocks, headId) else 0, target != headId
      {
        ok := PopTowards(start, target);
        if !ok {
          return false;
        }
      }
      return true;
    }

    /** One turn of the extend loop of switch_to_fork: history[i] follows the head on the way to the
        target, history[0]. */
    method ExtendTowards(history: seq<BlockId>, i: nat, ghost before: set<BlockId>, ghost lo: nat) returns (ok: bool)
      requires Ready() && i + 1 < |history| && Reaches(blocks, history[0])
      requires BackTo(history, Path(blocks, history[0]), lo) && headId == history[i + 1]
      requires GENESIS !in before && UndoWindow(Path(blocks, headId), before, undo.Keys, lo, maxUndo)
      modifies this`fork, this`numToId, this`ledger, this`headId, this`header, this`undo, this`reached
      ensures ok ==>
        && Consistent() && headId == history[i]
        && Num(blocks, headId) == Num(blocks, old(headId)) + 1 && reached == Higher(old(reached), Num(blocks, headId))
        && UndoWindow(Path(blocks, headId), before, undo.Keys, lo, maxUndo)
      ensures !ok ==>
        && Ready() && headId == old(headId) && header == old(header) && undo == old(undo) && reached == old(reached)
        && LastGood(rules, blocks, history[0]) == headId != history[0]
    {
      var x := history[i];
      NextOnPath(history, i, lo);
      NextWindow(x, before, lo);
      ghost var expired, was, applied := Expired(numToId, header.num, maxUndo), undo, rules.apply(ledger, blocks[x]);
      ok := ExtendChain(blocks[x]);
      if ok {
        KeysAfter(was, x, applied.value.1, expired);
      }
    }

    /** The next entry of the history is the head's child; if it does not apply, the head is where the switch ends. */
    lemma NextOnPath(history: seq<BlockId>, i: nat, lo: nat)
      requires Ready() && i + 1 < |history| && Reaches(blocks, history[0])
      requires BackTo(history, Path(blocks, history[0]), lo) && headId == history[i + 1]
      ensures var x := history[i];
        && x in blocks && blocks[x].id == x && blocks[x].previous == headId && Reaches(blocks, x)
        && blocks[x].num == Num(blocks, headId) + 1
        && lo < |Path(blocks, headId)|
        && (rules.apply(ledger, blocks[x]).None? ==> LastGood(rules, blocks, history[0]) == headId != history[0])
    {
      var x := history[i];
      var c := |Path(blocks, history[0])| - 2 - i;
      assert x == Path(blocks, history[0])[c + 1] && headId == Path(blocks, history[0])[c];
      PathNext(blocks, history[0], c);
      if rules.apply(ledger, blocks[x]).None? {
        LastGoodIs(rules, blocks, history[0], c);
      }
    }

    /** What the window will be once x has extended the head. */
    lemma NextWindow(x: BlockId, before: set<BlockId>, lo: nat)
      requires Ready() && x in blocks && Reaches(blocks, x) && blocks[x].previous == headId
      requires lo < |Path(blocks, headId)| && GENESIS !in before
      requires UndoWindow(Path(blocks, headId), before, undo.Keys, lo, maxUndo)
      ensures UndoWindow(Path(blocks, x), before, undo.Keys + {x} - Expired(numToId, header.num, maxUndo), lo, maxUndo)
    {
      PathStep(blocks, x);
      PathDistinct(blocks, headId);
      NoGenesisRecord(rules, blocks, undo);
      ExpiredMatches(blocks, fork, numToId, headId, header.num, maxUndo);
      UndoWindowStep(Path(blocks, headId), before, undo.Keys, x, lo, maxUndo);
    }

    /** The extend loop of switch_to_fork: the head follows the target's path for as long as its blocks
        apply, each leaving an undo record that outlives maxUndo further extensions. */
    method ExtendAlong(history: seq<BlockId>, ghost lo: nat) returns (ok: bool)
      requires Ready() && |history| >= 2 && Reaches(blocks, history[0])
      requires BackTo(history, Path(blocks, history[0]), lo) && headId == Path(blocks, history[0])[lo]
      modifies this`fork, this`numToId, this`ledger, this`headId, this`header, this`undo, this`reached
      ensures headId == LastGood(rules, blocks, history[0]) && (ok <==> headId == history[0])
      ensures Ready() && (ok || old(HeaderRight()) ==> HeaderRight())
      ensures UndoWindow(Path(blocks, headId), old(undo.Keys), undo.Keys, lo, maxUndo)
      ensures reached == Higher(old(reached), Num(blocks, headId))
    {
      ghost var before := undo.Keys;
      NoGenesisRecord(rules, blocks, undo);
      WindowStarts(history[0], lo);
      var i := |history| - 2;
      while i >= 0
        invariant -1 <= i <= |history| - 2
        invariant headId == history[i + 1]
        invariant Ready() && (i < |history| - 2 || old(HeaderRight()) ==> HeaderRight())
        invariant reached == Higher(old(reached), Num(blocks, headId))
        invariant UndoWindow(Path(blocks, headId), before, undo.Keys, lo, maxUndo)
      {
        ok := ExtendTowards(history, i, before, lo);
        if !ok {
          return false;
        }
        i := i - 1;
      }
      assert Replay(rules, blocks, history[0]).Some?;
      return true;
    }

    /** Before the first extension the window holds the head's own record, if it has one. */
    lemma WindowStarts(target: BlockId, lo: nat)
      requires Ready() && Reaches(blocks, target)
      requires lo < |Path(blocks, target)| && headId == Path(blocks, target)[lo]
      ensures UndoWindow(Path(blocks, headId), undo.Keys, undo.Keys, lo, maxUndo)
    {
      PathPrefix(blocks, target, lo);
    }

    /** Rewinds to the fork point of target and replays target's branch. Where that ends depends only on
        the stored blocks, the undo records and the head:
        a missing undo record leaves the head stuck there, a fork point at genesis leaves everything rewound
        but the header, and otherwise the head is the last block towards target that applies. */
    method SwitchToFork(target: BlockId) returns (ok: bool)
      requires Ready() || Stuck()
      requires target == GENESIS || Reaches(blocks, target)
      modifies this`fork, this`numToId, this`ledger, this`headId, this`header, this`undo, this`reached
      ensures old(Stuck()) ==> !ok && Stuck() && headId == old(headId)
      ensures target == GENESIS && old(Consistent()) ==> !ok && Consistent() && headId == old(headId)
      ensures old(Ready()) && target != GENESIS ==>
        var f := ForkPoint(blocks, old(headId), target);
        if !old(AllUndo(blocks, undo, headId, Num(blocks, f)))
        then !ok && Stuck() && headId == old(HighestGap(blocks, undo, headId))
        else if f == GENESIS != old(headId) then !ok && Rewound()
        else
          && headId == LastGood(rules, blocks, target) && (ok <==> headId == target)
          && Ready() && (ok || old(HeaderRight()) ==> HeaderRight())
          && UndoWindow(Path(blocks, headId), old(undo.Keys), undo.Keys, Num(blocks, f), maxUndo)
      ensures reached == old(if Ready() && target != GENESIS then ReachedBy(rules, blocks, undo, reached, headId, target) else reached)
    {
      var history := GetForkHistory(target);
      if history.None? {
        return false;
      }
      if Ready() {
        SwitchStart(blocks, headId, target, history.value);
      }
      ok := Retrace(history.value);
    }

    /** The two loops of switch_to_fork: down to the last entry of the history, then up to the first. */
    method Retrace(history: seq<BlockId>) returns (ok: bool)
      requires |history| >= 2
      requires (Stuck() && Last(history) != headId) || (Ready() && Retraceable(blocks, headId, history))
      modifies this`fork, this`numToId, this`ledger, this`headId, this`header, this`undo, this`reached
      ensures old(Stuck()) ==> !ok && Stuck() && headId == old(headId)
      ensures old(Ready()) ==>
        if !old(AllUndo(blocks, undo, headId, Num(blocks, Last(history))))
        then !ok && Stuck() && headId == old(HighestGap(blocks, undo, headId))
        else if Last(history) == GENESIS != old(headId) then !ok && Rewound()
        else
          && headId == LastGood(rules, blocks, history[0]) && (ok <==> headId == history[0])
          && Ready() && (ok || old(HeaderRight()) ==> HeaderRight())
          && UndoWindow(Path(blocks, headId), old(undo.Keys), undo.Keys, Num(blocks, Last(history)), maxUndo)
          && reached == Higher(old(reached), Num(blocks, headId))
      ensures old(Stuck() || !AllUndo(blocks, undo, headId, Num(blocks, Last(history))) || Last(history) == GENESIS != headId) ==> reached == old(reached)
    {
      ghost var lo := Num(blocks, Last(history));
      if Ready() {
        assert Path(blocks, history[0])[lo] == Last(history);
      }
      ok := PopTo(Last(history));
      if ok {
        ok := ExtendAlong(history, lo);
      }
    }

    /** Where a failed switch from currentHead to target can have left things. */
    ghost predicate SwitchFailed(before: map<BlockId, U>, currentHead: BlockId, target: BlockId)
      requires WellFormed(blocks) && Reaches(blocks, currentHead) && Reaches(blocks, target) && target != GENESIS
      reads this
    {
      var f := ForkPoint(blocks, currentHead, target);
      if !AllUndo(blocks, before, currentHead, Num(blocks, f))
      then Stuck() && headId == HighestGap(blocks, before, currentHead)
      else if f == GENESIS != currentHead then Rewound()
      else
        && Consistent() && headId == LastGood(rules, blocks, target) != target
        && UndoWindow(Path(blocks, headId), before.Keys, undo.Keys, Num(blocks, f), maxUndo)
    }

    /** Where going back to currentHead will end, and whether damaged, read off the present state. */
    ghost predicate GoesBack(currentHead: BlockId, end: BlockId, lost: bool)
      requires WellFormed(blocks) && Reaches(blocks, currentHead)
      reads this
    {
      if Stuck() then end == headId && lost
      else if currentHead == GENESIS then Consistent() && end == headId && !lost
      else
        && Ready()
        && var back := ForkPoint(blocks, headId, currentHead);
           if !AllUndo(blocks, undo, headId, Num(blocks, back)) then lost && end == HighestGap(blocks, undo, headId)
           else if back == GENESIS != headId then lost && end == GENESIS
           else !lost && end == currentHead == LastGood(rules, blocks, currentHead)
    }

    /** After a failed switch that is as RestingHead and RollbackLost say of the state before it. */
    lemma FailedGoesBack(currentHead: BlockId, before: map<BlockId, U>, target: BlockId)
      requires WellFormed(blocks) && Reaches(blocks, currentHead) && Reaches(blocks, target)
      requires Num(blocks, target) > Num(blocks, currentHead) && Replay(rules, blocks, currentHead).Some?
      requires SwitchFailed(before, currentHead, target)
      ensures GoesBack(currentHead, RestingHead(rules, maxUndo, blocks, before, currentHead, target),
                       RollbackLost(rules, maxUndo, blocks, before, currentHead, target))
    {
      if Rewound() {
        assert Path(blocks, GENESIS) == [GENESIS];
        assert Num(blocks, ForkPoint(blocks, currentHead, target)) == 0;
      } else if currentHead != GENESIS && !Stuck() {
        WayBack(rules, maxUndo, blocks, before, undo, currentHead, target);
        WayBackEnds(rules, maxUndo, blocks, before, undo, currentHead, target);
      }
    }

    lemma StuckIsDamaged()
      requires Stuck()
      ensures !Consistent()
    {
      if Consistent() {
        PathFacts(blocks, headId);
        assert false;
      }
    }

    /** The handler of push_block: back to the old head. */
    method SwitchBack(currentHead: BlockId, ghost end: BlockId, ghost lost: bool) returns (ok: bool)
      requires WellFormed(blocks) && Reaches(blocks, currentHead) && GoesBack(currentHead, end, lost)
      requires Num(blocks, currentHead) <= reached
      modifies this`fork, this`numToId, this`ledger, this`headId, this`header, this`undo, this`reached
      ensures headId == end && (Consistent() <==> !lost)
      ensures ok <==> Consistent() && currentHead != GENESIS
      ensures reached == old(reached)
    {
      ok := SwitchToFork(currentHead);
      if Stuck() {
        StuckIsDamaged();
      }
    }

    /** Switch to a longer fork and, if that fails, back to the old head. The database is damaged exactly
        when RollbackLost says so of the state before. Damaged or not, the head ends at the target or where
        RestingHead says. */
    method Reorganise(target: BlockId) returns (switched: bool, reverted: bool)
      requires Consistent() && Reaches(blocks, target) && Num(blocks, target) > Num(blocks, headId)
      modifies this`fork, this`numToId, this`ledger, this`headId, this`header, this`undo, this`reached
      ensures Consistent() <==> !old(RollbackLost(rules, maxUndo, blocks, undo, headId, target))
      ensures switched <==> old(Switches(rules, blocks, undo, headId, target))
      ensures !switched ==> (reverted <==> Consistent() && old(headId) != GENESIS)
      ensures headId == if switched then target else old(RestingHead(rules, maxUndo, blocks, undo, headId, target))
      ensures reached == old(ReachedBy(rules, blocks, undo, reached, headId, target))
    {
      var currentHead := headId;
      ghost var before := undo;
      switched := SwitchToFork(target);
      reverted := false;
      if !switched {
        FailedGoesBack(currentHead, before, target);
        reverted := SwitchBack(currentHead, RestingHead(rules, maxUndo, blocks, before, currentHead, target),
                               RollbackLost(rules, maxUndo, blocks, before, currentHead, target));
      }
    }

    // ---------- push_block ----------

    /** How a push of b ends that followed target (tried) or not, starting from the given undo records, head
        and highest head number: where the head goes, whether to a lower number, how high a head has been,
        whether the database is damaged, and whether push_block throws. */
    ghost predicate Pushed(before: map<BlockId, U>, was: BlockId, peak: nat, b: Block, target: BlockId, tried: bool,
                           result: Option<ForkData>)
      requires WellFormed(blocks) && Reaches(blocks, was)
      requires tried ==> Reaches(blocks, target) && target != GENESIS
      reads this
    {
      && headId == NextHead(rules, maxUndo, blocks, before, was, b, target, tried)
      && reached == NextReached(rules, blocks, before, peak, was, b, target, tried)
      && (Num(blocks, headId) < Num(blocks, was) <==> tried && HeightLost(rules, maxUndo, blocks, before, was, target))
      && (Consistent() <==> !(tried && RollbackLost(rules, maxUndo, blocks, before, was, target)))
      && (result.None? <==>
           if b.previous == was then Replay(rules, blocks, b.id).None?
           else tried && !Switches(rules, blocks, before, was, target) && (!Consistent() || was == GENESIS))
    }

    /** Read off the present state: whether the head's child applies, and whether the fork is followed. */
    lemma FollowReads(b: Block, lastId: BlockId)
      requires Consistent() && b.id in blocks && blocks[b.id] == b && lastId in blocks
      ensures b.previous == headId ==> (Replay(rules, blocks, b.id).Some? <==> rules.apply(ledger, b).Some?)
      ensures b.previous != headId ==>
        (Follows(blocks, fork, headId, b, lastId) <==> fork[lastId].CanLink() && blocks[lastId].num > header.num)
    {
      if b.previous == headId {
        ChildReaches(blocks, b.id);
      }
    }

    /** The second half of push_block: extend the head, or reorganise to the chain ending in lastId. */
    method FollowChain(b: Block, lastId: BlockId, longest: ForkData) returns (result: Option<ForkData>)
      requires Consistent() && b.id in blocks && blocks[b.id] == b
      requires lastId in blocks && longest == fork[lastId]
      modifies this`fork, this`numToId, this`ledger, this`headId, this`header, this`undo, this`reached
      ensures Pushed(old(undo), old(headId), old(reached), b, lastId, old(Follows(blocks, fork, headId, b, lastId)), result)
      ensures !old(Follows(blocks, fork, headId, b, lastId)) ==> undo == old(NextUndo(rules, maxUndo, undo, ledger, headId, header.num, numToId, b))
      ensures !old(Follows(blocks, fork, headId, b, lastId)) && b.previous != old(headId) ==> fork == old(fork)
    {
      FollowReads(b, lastId);
      HeightDrops(rules, maxUndo, blocks, fork, undo, headId, b, lastId);
      var data := fork[b.id];
      if b.previous == headId {
        var ok := ExtendChain(b);
        result := if ok then Some(fork[b.id]) else None;
      } else if longest.CanLink() && blocks[lastId].num > header.num {
        var switched, reverted := Reorganise(lastId);
        result := if switched then Some(fork[b.id]) else if reverted then Some(data) else None;
      } else {
        result := Some(data);
      }
    }

    /** Records b and follows the longest chain; Some is what push_block returns, None that it throws. A block
        numbered maxUndo or more below the head, and no other, is refused and changes nothing. `target` is the
        block store_and_index pointed at. The head moves as NextHead says, and to a lower number exactly when
        target was followed and HeightLost held before; the database stays consistent unless target was
        followed and RollbackLost held before. */
    method PushBlock(b: Block) returns (result: Option<ForkData>, ghost target: BlockId)
      requires Consistent() && Storable(blocks, b)
      modifies this
      ensures old(b.num + maxUndo <= Num(blocks, headId)) ==> result.None? && unchanged(this) && Consistent()
      ensures old(b.num + maxUndo > Num(blocks, headId)) ==>
        && b.id in blocks && blocks == old(blocks)[b.id := b] && WellFormed(blocks) && Reaches(blocks, old(headId)) && target in blocks
        && PointsAt(blocks, old(fork), b, target)
      ensures old(b.num + maxUndo > Num(blocks, headId)) ==>
        var tried := Follows(blocks, old(fork), old(headId), b, target);
        && Pushed(old(undo), old(headId), old(reached), b, target, tried, result)
        && (!tried ==> undo == old(NextUndo(rules, maxUndo, undo, ledger, headId, header.num, numToId, b)))
        && (!tried && b.previous != old(headId) ==> Unjudged(old(fork), b, fork))
      ensures old(FirstBlocksRefused(rules, blocks, headId)) && Consistent() ==> FirstBlocksRefused(rules, blocks, headId)
    {
      if header.num > maxUndo && b.num <= header.num - maxUndo {
        return None, GENESIS;
      }
      result, target := KeepBlock(b);
    }

    /** The rest of push_block, for a block that is not too old. */
    method KeepBlock(b: Block) returns (result: Option<ForkData>, ghost target: BlockId)
      requires Consistent() && Storable(blocks, b)
      modifies this
      ensures blocks == old(blocks)[b.id := b] && WellFormed(blocks) && Reaches(blocks, old(headId)) && target in blocks
      ensures PointsAt(blocks, old(fork), b, target)
      ensures var tried := Follows(blocks, old(fork), old(headId), b, target);
        && Pushed(old(undo), old(headId), old(reached), b, target, tried, result)
        && (!tried ==> undo == old(NextUndo(rules, maxUndo, undo, ledger, headId, header.num, numToId, b)))
        && (!tried && b.previous != old(headId) ==> Unjudged(old(fork), b, fork))
      ensures old(FirstBlocksRefused(rules, blocks, headId)) && Consistent() ==> FirstBlocksRefused(rules, blocks, headId)
    {
      ghost var was, refused := blocks, FirstBlocksRefused(rules, blocks, headId);
      var lastId, longest := Record(b);
      target := lastId;
      SameVerdict(blocks, old(fork), fork, headId, b, target);
      ghost var tried := Follows(blocks, fork, headId, b, target);
      if refused && !(tried && RollbackLost(rules, maxUndo, blocks, undo, headId, target)) {
        FirstBlocksStayRefused(rules, maxUndo, was, undo, headId, b, target, tried);
      }
      result := FollowChain(b, lastId, longest);
    }

    /** Storing a block leaves a consistent database consistent: nothing the main chain rests on moves. */
    method Record(b: Block) returns (lastId: BlockId, longest: ForkData)
      requires Consistent() && Storable(blocks, b)
      modifies this`blocks, this`fork
      ensures Consistent() && blocks == old(blocks)[b.id := b] && Unjudged(old(fork), b, fork)
      ensures lastId in blocks && longest == fork[lastId]
      ensures PointsAt(blocks, old(fork), b, lastId)
    {
      lastId, longest := StoreAndIndex(b);
      AlignedStore(rules, old(blocks), old(fork), numToId, headId, ledger, undo, reached, maxUndo, b, fork);
    }
  }

  /** The undo records after a push that tries no other fork. */
  ghost function NextUndo<L, U>(rules: Rules<L, U>, maxUndo: nat, undo: map<BlockId, U>, ledger: L, head: BlockId, num: nat,
                                numToId: map<nat, BlockId>, b: Block): map<BlockId, U> {
    if b.previous == head && rules.apply(ledger, b).Some?
    then undo[b.id := rules.apply(ledger, b).value.1] - Expired(numToId, num, maxUndo)
    else undo
  }

  /** The history runs from a linked block back to one on the main chain. */
  ghost predicate Retraceable(blocks: Blocks, head: BlockId, history: seq<BlockId>)
    requires Reaches(blocks, head) && |history| >= 2
  {
    && Last(history) in Path(blocks, head) && Reaches(blocks, history[0])
    && BackTo(history, Path(blocks, history[0]), Num(blocks, Last(history)))
  }

  lemma SwitchStart(blocks: Blocks, head: BlockId, target: BlockId, history: seq<BlockId>)
    requires WellFormed(blocks) && Reaches(blocks, head) && Reaches(blocks, target) && target != GENESIS
    requires BackTo(history, Path(blocks, target), Num(blocks, ForkPoint(blocks, head, target)))
    ensures |history| >= 2 && history[0] == target && Last(history) == ForkPoint(blocks, head, target)
    ensures Retraceable(blocks, head, history)
  {
    ForkPointSplits(blocks, head, target);
  }

  lemma KeysAfter<U>(was: map<BlockId, U>, x: BlockId, record: U, expired: set<BlockId>)
    ensures (was[x := record] - expired).Keys == was.Keys + {x} - expired
  {
  }

  /** Popping from start has come down to head, still at or above target, each popped block having had
      its undo record. */
  ghost predicate PoppedDown<U>(blocks: Blocks, undo: map<BlockId, U>, start: BlockId, head: BlockId, target: BlockId) {
    && Reaches(blocks, start) && Reaches(blocks, head)
    && head in Path(blocks, start) && target in Path(blocks, head)
    && AllUndo(blocks, undo, start, Num(blocks, head))
    && HighestGap(blocks, undo, head) == HighestGap(blocks, undo, start)
  }

  lemma PoppedNone<U>(blocks: Blocks, undo: map<BlockId, U>, start: BlockId, target: BlockId)
    requires WellFormed(blocks) && Reaches(blocks, start) && target in Path(blocks, start)
    ensures PoppedDown(blocks, undo, start, start, target)
  {
    PathFacts(blocks, start);
  }

  lemma PopDown<U>(blocks: Blocks, undo: map<BlockId, U>, start: BlockId, head: BlockId, target: BlockId)
    requires WellFormed(blocks) && PoppedDown(blocks, undo, start, head, target) && head != target
    ensures head in blocks
    ensures head !in undo ==>
      !AllUndo(blocks, undo, start, Num(blocks, target)) && HighestGap(blocks, undo, start) == head
    ensures head in undo ==> PoppedDown(blocks, undo, start, blocks[head].previous, target)
    ensures Num(blocks, target) < Num(blocks, head) == Num(blocks, blocks[head].previous) + 1
  {
    PathStep(blocks, head);
    HeadPosition(blocks, start, head);
    HeadPosition(blocks, head, target);
    assert blocks[head].previous in Path(blocks, start) by {
      PathFacts(blocks, start);
    }
  }

  lemma HeadPosition(blocks: Blocks, start: BlockId, head: BlockId)
    requires WellFormed(blocks) && Reaches(blocks, start) && head in Path(blocks, start)
    ensures Num(blocks, head) < |Path(blocks, start)| && Path(blocks, start)[Num(blocks, head)] == head
    ensures Num(blocks, head) <= Num(blocks, start)
  {
    PathFacts(blocks, start);
  }

  function Last(s: seq<BlockId>): BlockId
    requires |s| > 0
  {
    s[|s| - 1]
  }

  // ---------- a run that damages the database ----------

  /** Ledgers are numbers; block 2 never applies. */
  function ToyApply(l: int, b: Block): Option<(int, int)> {
    if b.num == 2 then None else Some((l + 1, 1))
  }

  function ToyRevert(l: int, u: int): int {
    l - u
  }

  method AfterOneBlock() returns (db: ChainDatabase<int, int>)
    ensures fresh(db) && db.Consistent() && db.headId == 1 && 1 in db.undo
    ensures db.rules == Rules(0, ToyApply, ToyRevert) && db.maxUndo == 404 && db.blocks == map[1 := Block(1, GENESIS, 1)]
  {
    ToyStorable();
    db := new ChainDatabase(Rules(0, ToyApply, ToyRevert), 404);
    ghost var r, t := db.PushBlock(Block(1, GENESIS, 1));
    assert db.blocks == map[1 := Block(1, GENESIS, 1)];
  }

  method AfterTwoBlocks() returns (db: ChainDatabase<int, int>)
    ensures fresh(db) && db.Consistent() && db.headId == 1 && 1 in db.undo
    ensures db.rules == Rules(0, ToyApply, ToyRevert) && db.maxUndo == 404
    ensures db.blocks == map[1 := Block(1, GENESIS, 1), 2 := Block(2, 1, 2)]
  {
    db := AfterOneBlock();
    ToyStorable();
    ghost var r, t := db.PushBlock(Block(2, 1, 2));
    assert db.blocks == map[1 := Block(1, GENESIS, 1), 2 := Block(2, 1, 2)];
  }

  lemma ToyStorable()
    ensures Storable(map[], Block(1, GENESIS, 1))
    ensures Storable(map[1 := Block(1, GENESIS, 1)], Block(2, 1, 2))
    ensures Storable(map[1 := Block(1, GENESIS, 1), 2 := Block(2, 1, 2)], Block(3, 2, 3))
  {
  }

  /** Three blocks in order, the second of them inapplicable, damage the database: block 3 tempts the node
      to switch, the switch fails on block 2, and rolling back has to pop block 1, whose parent has no
      block record. The head is left at genesis, one lower than before. */
  method BlockOneCannotBeRestored() returns (db: ChainDatabase<int, int>)
    ensures !db.Consistent() && db.headId == GENESIS
  {
    db := AfterTwoBlocks();
    var b3 := Block(3, 2, 3);
    ToyStorable();
    assert Children(db.blocks, 3) == {} && 3 !in db.fork;
    ToyRollback(db.undo);
    assert db.blocks[3 := b3] == map[1 := Block(1, GENESIS, 1), 2 := Block(2, 1, 2), 3 := b3];
    assert Follows(db.blocks[3 := b3], db.fork, 1, b3, 3);
    ghost var r, t := db.PushBlock(b3);
  }

  lemma ToyRollback(undo: map<BlockId, int>)
    requires 1 in undo
    ensures var blocks := map[1 := Block(1, GENESIS, 1), 2 := Block(2, 1, 2), 3 := Block(3, 2, 3)];
      && WellFormed(blocks) && Reaches(blocks, 1) && Reaches(blocks, 3)
      && var rules := Rules(0, ToyApply, ToyRevert);
         && !Switches(rules, blocks, undo, 1, 3) && RollbackLost(rules, 404, blocks, undo, 1, 3)
         && RestingHead(rules, 404, blocks, undo, 1, 3) == GENESIS
  {
    var blocks := map[1 := Block(1, GENESIS, 1), 2 := Block(2, 1, 2), 3 := Block(3, 2, 3)];
    ToyPaths();
    assert ForkPoint(blocks, 1, 2) == 1;
  }

  lemma ToyPaths()
    ensures var blocks := map[1 := Block(1, GENESIS, 1), 2 := Block(2, 1, 2), 3 := Block(3, 2, 3)];
      && WellFormed(blocks) && Reaches(blocks, 1) && Reaches(blocks, 2) && Reaches(blocks, 3)
      && Path(blocks, GENESIS) == [GENESIS] && Path(blocks, 1) == [GENESIS, 1]
      && var rules := Rules(0, ToyApply, ToyRevert);
         && Replay(rules, blocks, 1) == Some(1)
         && Replay(rules, blocks, 2).None? && Replay(rules, blocks, 3).None?
         && LastGood(rules, blocks, 3) == LastGood(rules, blocks, 2) == 1
  {
    var blocks := map[1 := Block(1, GENESIS, 1), 2 := Block(2, 1, 2), 3 := Block(3, 2, 3)];
    assert Reaches(blocks, 1) && Reaches(blocks, 2);
    assert Path(blocks, GENESIS) == [GENESIS];
    var rules := Rules(0, ToyApply, ToyRevert);
    assert Replay(rules, blocks, 1) == Some(1);
    assert Replay(rules, blocks, 2).None?;
  }

  /** Started from a database holding block 1 but still at genesis, the same fork would be kept up to block 1. */
  lemma PartForkKept()
    ensures var blocks := map[1 := Block(1, GENESIS, 1), 2 := Block(2, 1, 2), 3 := Block(3, 2, 3)];
      && WellFormed(blocks) && Reaches(blocks, 3)
      && var rules, undo := Rules(0, ToyApply, ToyRevert), map[];
         && !RollbackLost(rules, 404, blocks, undo, GENESIS, 3)
         && RestingHead(rules, 404, blocks, undo, GENESIS, 3) == 1
         && !FirstBlocksRefused(rules, blocks, GENESIS)
  {
    ToyPaths();
  }

  // ---------- a failed switch that shortens what can be undone ----------

  /** Ledgers are numbers; block 5 never applies. */
  function ToyRefuse(l: int, b: Block): Option<(int, int)> {
    if b.num == 5 then None else Some((l + 1, 1))
  }

  /** Blocks 1 and 2, and a fork of four on block 1 whose last one never applies. */
  const TOY_FORK: Blocks :=
    map[1 := Block(1, GENESIS, 1), 2 := Block(2, 1, 2), 12 := Block(12, 1, 2), 13 := Block(13, 12, 3), 14 := Block(14, 13, 4), 15 := Block(15, 14, 5)]

  lemma ToyForkPaths()
    ensures WellFormed(TOY_FORK) && Reaches(TOY_FORK, 1) && Reaches(TOY_FORK, 2) && Reaches(TOY_FORK, 12) && Reaches(TOY_FORK, 13)
    ensures Path(TOY_FORK, 1) == [GENESIS, 1] && Path(TOY_FORK, 2) == [GENESIS, 1, 2]
    ensures Reaches(TOY_FORK, 14) && Reaches(TOY_FORK, 15)
  {
    assert Reaches(TOY_FORK, 1);
    assert Reaches(TOY_FORK, 12);
    assert Reaches(TOY_FORK, 13);
    assert Path(TOY_FORK, GENESIS) == [GENESIS];
  }

  lemma ToyForkReplays()
    ensures WellFormed(TOY_FORK)
    ensures var rules := Rules(0, ToyRefuse, ToyRevert);
      && Replay(rules, TOY_FORK, 14).Some? && Replay(rules, TOY_FORK, 15).None?
  {
    ToyForkPaths();
    var rules := Rules(0, ToyRefuse, ToyRevert);
    assert Replay(rules, TOY_FORK, 1) == Some(1);
    assert Replay(rules, TOY_FORK, 12) == Some(2);
    assert Replay(rules, TOY_FORK, 13) == Some(3);
  }

  lemma ToyForkPoint()
    ensures Reaches(TOY_FORK, 2) && Reaches(TOY_FORK, 15) && ForkPoint(TOY_FORK, 2, 15) == 1
  {
    ToyForkPaths();
    assert ForkPoint(TOY_FORK, 2, 12) == 1;
    assert ForkPoint(TOY_FORK, 2, 13) == 1;
    assert ForkPoint(TOY_FORK, 2, 14) == 1;
  }

  /** With undo records for two blocks, the switch to the fork fails and comes back with nothing damaged, but it
      has been to block 14: from then on a sibling of block 1 is still kept, and the head can no longer be
      undone to its parent. */
  lemma SwitchShortensReach(undo: map<BlockId, int>, now: map<BlockId, int>)
    requires 1 in undo && 2 in undo
    ensures WellFormed(TOY_FORK) && Reaches(TOY_FORK, 2) && Reaches(TOY_FORK, 15)
    ensures UndoTail(TOY_FORK, undo, 2, 2, 2)
    ensures var rules := Rules(0, ToyRefuse, ToyRevert);
      && !Switches(rules, TOY_FORK, undo, 2, 15) && !RollbackLost(rules, 2, TOY_FORK, undo, 2, 15)
      && RestingHead(rules, 2, TOY_FORK, undo, 2, 15) == 2 && ReachedBy(rules, TOY_FORK, undo, 2, 2, 15) == 4
    ensures UndoTail(TOY_FORK, now, 2, 4, 2) ==>
      var b := Block(21, GENESIS, 1);
      Storable(TOY_FORK, b) && b.num + 2 > Num(TOY_FORK, 2) && !AllUndo(TOY_FORK, now, 2, 0)
  {
    ToyForkPaths();
    ToyForkReplays();
    ToyForkPoint();
    assert LastGood(Rules(0, ToyRefuse, ToyRevert), TOY_FORK, 15) == 14;
    if UndoTail(TOY_FORK, now, 2, 4, 2) {
      CanUndoTo(TOY_FORK, now, 2, 4, 2, 0);
    }
  }
}
