/** Overlays on overlays: reads through a stack against reads after committing it, and transactions
    tried in a child overlay against transactions run in place. */
module Layers {
  import opened Options
  import opened Overlay

  // ---------- reading through a stack ----------

  /** A primary-key read: the topmost layer that has the key answers, else the state below. */
  function Read<K, V>(stack: seq<map<K, V>>, base: map<K, V>, k: K): Option<V> {
    if stack == [] then (if k in base then Some(base[k]) else None)
    else if k in stack[0] then Some(stack[0][k])
    else Read(stack[1..], base, k)
  }

  /** apply_changes from the top down: each layer is stored into the one below, as is, and the last
      one into the database, where null records remove. */
  function CommitStack<K, V>(stack: seq<map<K, V>>, base: map<K, V>, isNull: V -> bool): map<K, V>
    decreases |stack|
  {
    if stack == [] then base
    else if |stack| == 1 then Commit(base, stack[0], isNull)
    else CommitStack([stack[1] + stack[0]] + stack[2..], base, isNull)
  }

  /** What a caller can tell: a null record is as good as none. */
  function Present<V>(r: Option<V>, isNull: V -> bool): Option<V> {
    if r.Some? && isNull(r.value) then None else r
  }

  lemma {:induction false} ReadAfterCommit<K(!new), V>(stack: seq<map<K, V>>, base: map<K, V>, isNull: V -> bool, k: K)
    requires NoNulls(base, isNull)
    ensures Present(Read(stack, base, k), isNull) == Read([], CommitStack(stack, base, isNull), k)
    decreases |stack|
  {
    if |stack| == 1 {
      assert Read(stack[1..], base, k) == Read([], base, k);
    } else if |stack| > 1 {
      var merged := [stack[1] + stack[0]] + stack[2..];
      assert merged[1..] == stack[2..] && stack[1..][1..] == stack[2..];
      assert Read(stack, base, k) == Read(merged, base, k);
      ReadAfterCommit(merged, base, isNull, k);
    }
  }

  // ---------- transactions in a child overlay ----------

  /** One step of an evaluation: from everything visible, what it writes, or None when it throws. */
  type Step<!K, !V> = map<K, V> -> Option<map<K, V>>

  datatype Transaction<!K, !V> = Transaction(size: nat, steps: seq<Step<K, V>>)

  /** The changes a child overlay holds after the steps ran in it, on top of `below`. */
  function RunInChild<K, V>(steps: seq<Step<K, V>>, below: map<K, V>, child: map<K, V>): Option<map<K, V>> {
    if steps == [] then Some(child)
    else match steps[0](below + child)
         case None => None
         case Some(writes) => RunInChild(steps[1..], below, child + writes)
  }

  /** The pending state after the steps wrote straight into it. */
  function RunInPlace<K, V>(steps: seq<Step<K, V>>, base: map<K, V>, pending: map<K, V>): Option<map<K, V>> {
    if steps == [] then Some(pending)
    else match steps[0](base + pending)
         case None => None
         case Some(writes) => RunInPlace(steps[1..], base, pending + writes)
  }

  /** Running in a child and committing it is running in place. */
  lemma {:induction false} ChildIsInPlace<K, V>(steps: seq<Step<K, V>>, base: map<K, V>, pending: map<K, V>, child: map<K, V>)
    ensures RunInPlace(steps, base, pending + child) ==
      match RunInChild(steps, base + pending, child) case None => None case Some(c) => Some(pending + c)
    decreases |steps|
  {
    assert base + (pending + child) == (base + pending) + child;
    if steps != [] {
      var writes := steps[0](base + (pending + child));
      if writes.Some? {
        assert (pending + child) + writes.value == pending + (child + writes.value);
        ChildIsInPlace(steps[1..], base, pending, child + writes.value);
      }
    }
  }

  /** How a block is applied: every transaction in place, the first failure failing the block. */
  function ApplyTransactions<K, V>(txs: seq<Transaction<K, V>>, base: map<K, V>, pending: map<K, V>): Option<map<K, V>> {
    if txs == [] then Some(pending)
    else match RunInPlace(txs[0].steps, base, pending)
         case None => None
         case Some(p) => ApplyTransactions(txs[1..], base, p)
  }

  lemma {:induction false} ApplyOneMore<K, V>(txs: seq<Transaction<K, V>>, tx: Transaction<K, V>, base: map<K, V>, pending: map<K, V>)
    ensures ApplyTransactions(txs + [tx], base, pending) ==
      match ApplyTransactions(txs, base, pending) case None => None case Some(p) => RunInPlace(tx.steps, base, p)
    decreases |txs|
  {
    if txs == [] {
      assert (txs + [tx])[1..] == [];
    } else {
      assert (txs + [tx])[1..] == txs[1..] + [tx];
      match RunInPlace(txs[0].steps, base, pending)
      case None =>
      case Some(p) => ApplyOneMore(txs[1..], tx, base, p);
    }
  }

  function TotalSize<K, V>(txs: seq<Transaction<K, V>>): nat {
    if txs == [] then 0 else TotalSize(txs[..|txs| - 1]) + txs[|txs| - 1].size
  }

  /** A transaction tried and not taken throws when it is applied after those taken before it. */
  predicate LeftOut<K, V>(queue: seq<Transaction<K, V>>, taken: seq<bool>, base: map<K, V>, start: map<K, V>) {
    |taken| <= |queue| && forall i :: 0 <= i < |taken| && !taken[i] ==> Throws(queue, taken, i, base, start)
  }

  predicate Throws<K, V>(queue: seq<Transaction<K, V>>, taken: seq<bool>, i: nat, base: map<K, V>, start: map<K, V>) {
    i < |taken| && i < |queue| && ApplyTransactions(Taken(queue[..i], taken[..i]) + [queue[i]], base, start).None?
  }

  lemma OneMoreTried<K, V>(queue: seq<Transaction<K, V>>, taken: seq<bool>, flag: bool, base: map<K, V>, start: map<K, V>)
    requires LeftOut(queue, taken, base, start) && |taken| < |queue|
    requires flag || ApplyTransactions(Taken(queue[..|taken|], taken) + [queue[|taken|]], base, start).None?
    ensures LeftOut(queue, taken + [flag], base, start)
    ensures Taken(queue[..|taken| + 1], taken + [flag]) == Taken(queue[..|taken|], taken) + if flag then [queue[|taken|]] else []
    ensures TotalSize(queue[..|taken| + 1]) == TotalSize(queue[..|taken|]) + queue[|taken|].size
  {
    var i, now := |taken|, taken + [flag];
    assert queue[..i + 1][..i] == queue[..i] && now[..i] == taken;
    forall j | 0 <= j < i && !now[j] ensures Throws(queue, now, j, base, start) {
      assert Throws(queue, taken, j, base, start) && now[..j] == taken[..j];
    }
  }

  /** The pending transactions tried in order, each in a child overlay committed only on success: what
      gets into the block is a subsequence that, applied in place to the same state, succeeds and gives
      the very state assembled here; a transaction is left out only because it threw there. Cut off
      says after which one the five seconds are over. */
  method GenerateBlock<K, V>(queue: seq<Transaction<K, V>>, base: map<K, V>, start: map<K, V>, maxSize: nat, cutOff: nat)
    returns (block: seq<Transaction<K, V>>, pending: map<K, V>, ghost taken: seq<bool>)
    ensures ApplyTransactions(block, base, start) == Some(pending)
    ensures |taken| <= |queue| && block == Taken(queue[..|taken|], taken)
    ensures LeftOut(queue, taken, base, start)
    ensures TotalSize(queue[..|taken|]) <= maxSize
    ensures |taken| < |queue| ==> |taken| == cutOff + 1 || TotalSize(queue[..|taken|]) + queue[|taken|].size > maxSize
  {
    block, pending, taken := [], start, [];
    var size := 0;
    var i := 0;
    while i < |queue|
      invariant i == |taken| <= |queue| && i <= cutOff
      invariant ApplyTransactions(block, base, start) == Some(pending)
      invariant block == Taken(queue[..i], taken)
      invariant LeftOut(queue, taken, base, start)
      invariant size == TotalSize(queue[..i]) <= maxSize
    {
      var tx := queue[i];
      if size + tx.size > maxSize {
        break;
      }
      size := size + tx.size;
      ApplyOneMore(block, tx, base, start);
      var committed := TryInChild(tx, base, pending);
      OneMoreTried(queue, taken, committed.Some?, base, start);
      taken := taken + [committed.Some?];
      if committed.Some? {
        pending := committed.value;
        block := block + [tx];
      }
      i := i + 1;
      if i == cutOff + 1 {
        break;
      }
    }
  }

  /** Evaluate in a fresh child overlay; on success commit it into pending. */
  method TryInChild<K, V>(tx: Transaction<K, V>, base: map<K, V>, pending: map<K, V>) returns (committed: Option<map<K, V>>)
    ensures committed == RunInPlace(tx.steps, base, pending)
  {
    var child := RunInChild(tx.steps, base + pending, map[]);
    ChildIsInPlace(tx.steps, base, pending, map[]);
    assert pending + map[] == pending;
    committed := if child.Some? then Some(pending + child.value) else None;
  }

  /** The transactions whose flag is set. */
  function Taken<T>(queue: seq<T>, flags: seq<bool>): seq<T>
    requires |queue| == |flags|
  {
    if queue == [] then [] else
      Taken(queue[..|queue| - 1], flags[..|flags| - 1]) + if flags[|flags| - 1] then [queue[|queue| - 1]] else []
  }
}
