/** The exchange by which a node learns which blocks it lacks: it sends a synopsis of its chain, dense
    at the end and sparse at the beginning, and the peer answers with its own chain from the last entry
    it recognises. */
module ChainSync {
  import opened Arithmetic

  /** Block ids; 0 is the id of no block. Block number i is at position i - 1 of a chain. */
  type BlockId = nat
  type Chain = seq<BlockId>

  ghost predicate Distinct(c: Chain) {
    forall i, j :: 0 <= i < j < |c| ==> c[i] != c[j]
  }

  // ---------- the numbers in a synopsis ----------

  /** Each step covers half of what is left up to trueHigh. */
  function Step(low: nat, trueHigh: nat): nat
    requires low <= trueHigh
  {
    low + (trueHigh - low + 2) / 2
  }

  function Numbers(low: nat, high: nat, trueHigh: nat): seq<nat>
    requires low <= high <= trueHigh
    decreases high - low
  {
    var next := Step(low, trueHigh);
    if next <= high then [low] + Numbers(next, high, trueHigh) else [low]
  }

  function Log2(n: nat): nat
    requires n > 0
  {
    if n == 1 then 0 else 1 + Log2(n / 2)
  }

  lemma {:induction false} NumbersFacts(low: nat, high: nat, trueHigh: nat)
    requires low <= high <= trueHigh
    ensures var s := Numbers(low, high, trueHigh);
      && |s| >= 1 && s[0] == low && s[|s| - 1] <= high
      && (forall i, j :: 0 <= i < j < |s| ==> s[i] < s[j])
      && (forall i :: 0 <= i < |s| - 1 ==> s[i] <= trueHigh && s[i + 1] == Step(s[i], trueHigh))
      && (high == trueHigh ==> s[|s| - 1] == high)
    decreases high - low
  {
    var next := Step(low, trueHigh);
    if next <= high {
      NumbersFacts(next, high, trueHigh);
      var s, t := Numbers(low, high, trueHigh), Numbers(next, high, trueHigh);
      assert s == [low] + t;
    }
  }

  /** As many entries as the length of what is summarised has binary digits. */
  lemma {:induction false} NumbersLength(low: nat, high: nat)
    requires low <= high
    ensures |Numbers(low, high, high)| == Log2(high - low + 1) + 1
    decreases high - low
  {
    var next := Step(low, high);
    if next <= high {
      NumbersLength(next, high);
      assert (high - low + 1) / 2 == high - next + 1;
    }
  }

  // ---------- the synopsis ----------

  function SynopsisFrom(path: Chain, low: nat, trueHigh: nat): seq<BlockId>
    requires 1 <= low <= |path| <= trueHigh
    decreases |path| - low
  {
    var next := Step(low, trueHigh);
    [path[low - 1]] + if next <= |path| then SynopsisFrom(path, next, trueHigh) else []
  }

  /** The synopsis of a path, with room left for blocks the node has heard of after it. */
  function SynopsisOf(path: Chain, after: nat): seq<BlockId> {
    if path == [] then [] else SynopsisFrom(path, 1, |path| + after)
  }

  lemma Prepended(path: Chain, t: seq<BlockId>, numbers: seq<nat>, low: nat)
    requires 1 <= low <= |path| && |t| == |numbers|
    requires forall i :: 0 <= i < |t| ==> 1 <= numbers[i] <= |path| && t[i] == path[numbers[i] - 1]
    ensures var s, n := [path[low - 1]] + t, [low] + numbers;
      forall i :: 0 <= i < |s| ==> 1 <= n[i] <= |path| && s[i] == path[n[i] - 1]
  {
  }

  lemma {:induction false} SynopsisEntries(path: Chain, low: nat, trueHigh: nat)
    requires 1 <= low <= |path| <= trueHigh
    ensures var s, numbers := SynopsisFrom(path, low, trueHigh), Numbers(low, |path|, trueHigh);
      |s| == |numbers| && forall i :: 0 <= i < |s| ==> 1 <= numbers[i] <= |path| && s[i] == path[numbers[i] - 1]
    decreases |path| - low
  {
    var next := Step(low, trueHigh);
    if next <= |path| {
      SynopsisEntries(path, next, trueHigh);
      Prepended(path, SynopsisFrom(path, next, trueHigh), Numbers(next, |path|, trueHigh), low);
    }
  }

  /** What get_fork_history gives for a block off the main chain: the block first, back to the first that
      is on the chain, or to no block at all. */
  predicate IsHistory(chain: Chain, reference: BlockId, history: seq<BlockId>) {
    && |history| >= 2 && history[0] == reference
    && (history[|history| - 1] == 0 || history[|history| - 1] in chain)
  }

  /** The number of a block on the chain; 0 for no block. */
  function BlockNum(chain: Chain, id: BlockId): (r: nat)
    ensures r <= |chain| && (r > 0 ==> chain[r - 1] == id) && (id in chain ==> r > 0)
  {
    if chain == [] then 0
    else if chain[|chain| - 1] == id then |chain|
    else BlockNum(chain[..|chain| - 1], id)
  }

  function Reversed(s: seq<BlockId>): (r: seq<BlockId>)
    ensures |r| == |s| && forall i :: 0 <= i < |s| ==> r[i] == s[|s| - 1 - i]
  {
    if s == [] then [] else Reversed(s[1..]) + [s[0]]
  }

  /** The chain a node would have with the reference block at its head. */
  function PathTo(chain: Chain, reference: BlockId, history: seq<BlockId>): (path: Chain)
    requires reference == 0 || reference in chain || IsHistory(chain, reference, history)
  {
    if reference == 0 then chain
    else if reference in chain then chain[..BlockNum(chain, reference)]
    else
      var forked := if history[|history| - 1] == 0 then 0 else BlockNum(chain, history[|history| - 1]);
      chain[..forked] + Reversed(history[..|history| - 1])
  }

  lemma OneMore(done: seq<BlockId>, path: Chain, low: nat, trueHigh: nat)
    requires 1 <= low <= |path| <= trueHigh
    ensures var next := Step(low, trueHigh);
      done + SynopsisFrom(path, low, trueHigh)
        == (done + [path[low - 1]]) + if next <= |path| then SynopsisFrom(path, next, trueHigh) else []
  {
  }

  /** Entries up to onChain come from the main chain, later ones from the fork. */
  function EntryAt(chain: Chain, onChain: nat, fork: Chain, low: nat): BlockId
    requires onChain <= |chain| && 1 <= low <= onChain + |fork|
  {
    if low <= onChain then chain[low - 1] else fork[low - onChain - 1]
  }

  method Summarise(chain: Chain, onChain: nat, fork: Chain, high: nat, trueHigh: nat, ghost path: Chain) returns (synopsis: seq<BlockId>)
    requires onChain <= |chain| && 1 <= high == onChain + |fork| == |path| && high <= trueHigh
    requires forall low :: 1 <= low <= high ==> EntryAt(chain, onChain, fork, low) == path[low - 1]
    ensures synopsis == SynopsisFrom(path, 1, trueHigh)
  {
    var low: nat := 1;
    synopsis := [];
    while low <= high
      invariant 1 <= low
      invariant SynopsisFrom(path, 1, trueHigh) == synopsis + if low <= high then SynopsisFrom(path, low, trueHigh) else []
      decreases high + 1 - low
    {
      OneMore(synopsis, path, low, trueHigh);
      synopsis := synopsis + [EntryAt(chain, onChain, fork, low)];
      low := Step(low, trueHigh);
    }
  }

  /** Where the path to a reference block leaves the main chain, and what it has after that. */
  method Locate(chain: Chain, reference: BlockId, history: seq<BlockId>) returns (onChain: nat, fork: seq<BlockId>)
    requires reference == 0 || reference in chain || IsHistory(chain, reference, history)
    ensures onChain <= |chain| && PathTo(chain, reference, history) == chain[..onChain] + fork
  {
    fork := [];
    if reference == 0 {
      onChain := |chain|;
      assert chain[..onChain] + fork == chain;
    } else if reference in chain {
      onChain := BlockNum(chain, reference);
    } else {
      var last := history[|history| - 1];
      fork := Reversed(history[..|history| - 1]);
      onChain := if last == 0 then 0 else BlockNum(chain, last);
    }
  }

  lemma PathEntries(chain: Chain, onChain: nat, fork: Chain)
    requires onChain <= |chain|
    ensures |chain[..onChain] + fork| == onChain + |fork|
    ensures forall low :: 1 <= low <= onChain + |fork| ==> EntryAt(chain, onChain, fork, low) == (chain[..onChain] + fork)[low - 1]
  {
  }

  method GetBlockchainSynopsis(chain: Chain, reference: BlockId, history: seq<BlockId>, after: nat) returns (synopsis: seq<BlockId>)
    requires reference == 0 || reference in chain || IsHistory(chain, reference, history)
    ensures synopsis == SynopsisOf(PathTo(chain, reference, history), after)
  {
    var onChain, fork := Locate(chain, reference, history);
    var high := onChain + |fork|;
    PathEntries(chain, onChain, fork);
    if high == 0 {
      return [];
    }
    synopsis := Summarise(chain, onChain, fork, high, high + after, PathTo(chain, reference, history));
  }

  // ---------- the answer ----------

  /** The number of the last entry of a synopsis that the peer has on its chain; 1 if it has none. */
  function LastSeen(chain: Chain, synopsis: seq<BlockId>): nat {
    if synopsis == [] then 1
    else if synopsis[|synopsis| - 1] in chain then BlockNum(chain, synopsis[|synopsis| - 1])
    else LastSeen(chain, synopsis[..|synopsis| - 1])
  }

  datatype Answer = TooLong | Answer(ids: seq<BlockId>, remaining: nat)

  /** What a peer with this chain answers. */
  function Reply(chain: Chain, synopsis: seq<BlockId>, sizeLimit: nat, limit: nat): Answer {
    if |synopsis| > sizeLimit then TooLong
    else if chain == [] then Answer([], 0)
    else
      LastSeenInRange(chain, synopsis);
      var from := LastSeen(chain, synopsis) - 1;
      var count := Min(limit, |chain| - from);
      Answer(chain[from..from + count], |chain| - from - count)
  }

  lemma {:induction false} LastSeenInRange(chain: Chain, synopsis: seq<BlockId>)
    requires chain != []
    ensures 1 <= LastSeen(chain, synopsis) <= |chain|
    decreases |synopsis|
  {
    if synopsis != [] && synopsis[|synopsis| - 1] !in chain {
      LastSeenInRange(chain, synopsis[..|synopsis| - 1]);
    }
  }

  method GetItemIds(chain: Chain, synopsis: seq<BlockId>, sizeLimit: nat, limit: nat) returns (r: Answer)
    ensures r == Reply(chain, synopsis, sizeLimit, limit)
  {
    if |synopsis| > sizeLimit {
      return TooLong;
    }
    var lastSeen: nat := 1;
    var i := |synopsis|;
    var found := false;
    assert synopsis[..i] == synopsis;
    while i > 0 && !found
      invariant 0 <= i <= |synopsis|
      invariant LastSeen(chain, synopsis) == if found then lastSeen else LastSeen(chain, synopsis[..i])
      invariant !found ==> lastSeen == 1
      decreases i, !found
    {
      i := i - 1;
      assert synopsis[..i + 1][..i] == synopsis[..i];
      if synopsis[i] in chain {
        lastSeen := BlockNum(chain, synopsis[i]);
        found := true;
      }
    }
    if |chain| == 0 {
      return Answer([], 0);
    }
    LastSeenInRange(chain, synopsis);
    var remaining := |chain| - lastSeen + 1;
    var count := Min(limit, remaining);
    var ids := [];
    var next := lastSeen;
    while |ids| < count
      invariant |ids| <= count && next == lastSeen + |ids|
      invariant ids == chain[lastSeen - 1..lastSeen - 1 + |ids|]
    {
      ids := ids + [chain[next - 1]];
      next := next + 1;
    }
    remaining := remaining - count;
    r := Answer(ids, remaining);
  }

  // ---------- two nodes ----------

  /** Two chains agree on their first k blocks and share nothing after. */
  ghost predicate SharePrefix(a: Chain, b: Chain, k: nat) {
    && k <= |a| && k <= |b|
    && (forall i :: 0 <= i < k ==> a[i] == b[i])
    && (forall i :: k <= i < |a| ==> a[i] !in b)
  }

  lemma BlockNumIs(chain: Chain, i: nat)
    requires Distinct(chain) && i < |chain|
    ensures BlockNum(chain, chain[i]) == i + 1
  {
    var n := BlockNum(chain, chain[i]);
    assert chain[n - 1] == chain[i];
  }

  /** The last of the first j entries of a's synopsis that is shared, if there is one, decides. */
  lemma {:induction false} LastSeenIs(a: Chain, b: Chain, k: nat, synopsis: seq<BlockId>, numbers: seq<nat>, g: nat)
    requires Distinct(b) && SharePrefix(a, b, k) && |synopsis| == |numbers| && g < |numbers|
    requires forall i :: 0 <= i < |numbers| ==> 1 <= numbers[i] <= |a| && synopsis[i] == a[numbers[i] - 1]
    requires numbers[g] <= k && forall i :: g < i < |numbers| ==> numbers[i] > k
    ensures LastSeen(b, synopsis) == numbers[g]
    decreases |synopsis|
  {
    var last := |synopsis| - 1;
    if last == g {
      BlockNumIs(b, numbers[g] - 1);
    } else {
      LastSeenIs(a, b, k, synopsis[..last], numbers[..last], g);
    }
  }

  /** Of increasing numbers from 1, the greatest that is at most k. */
  lemma {:induction false} GreatestAtMost(s: seq<nat>, k: nat) returns (g: nat)
    requires s != [] && s[0] == 1 <= k && forall i, j :: 0 <= i < j < |s| ==> s[i] < s[j]
    ensures g < |s| && s[g] <= k && forall i :: g < i < |s| ==> s[i] > k
    decreases |s|
  {
    if s[|s| - 1] <= k {
      g := |s| - 1;
    } else {
      g := GreatestAtMost(s[..|s| - 1], k);
    }
  }

  /** The last shared entry is no further from the fork than the fork is from the head. */
  lemma CloseToTheFork(s: seq<nat>, high: nat, k: nat, g: nat)
    requires |s| >= 1 && g < |s| && s[g] <= k <= high && s[|s| - 1] == high
    requires g < |s| - 1 ==> s[g] <= high && s[g + 1] == Step(s[g], high) && s[g + 1] > k
    ensures k - s[g] <= high - k
  {
  }

  lemma SynopsisShape(path: Chain)
    requires path != []
    ensures var s, synopsis := Numbers(1, |path|, |path|), SynopsisOf(path, 0);
      && |s| == |synopsis| == Log2(|path|) + 1
      && s[0] == 1 && s[|s| - 1] == |path| && (forall i, j :: 0 <= i < j < |s| ==> s[i] < s[j])
      && (forall i :: 0 <= i < |s| ==> 1 <= s[i] <= |path| && synopsis[i] == path[s[i] - 1])
  {
    NumbersFacts(1, |path|, |path|);
    NumbersLength(1, |path|);
    SynopsisEntries(path, 1, |path|);
  }

  lemma NotListed(a: Chain, b: Chain, k: nat, synopsis: seq<BlockId>, numbers: seq<nat>, g: nat, i: nat)
    requires Distinct(b) && SharePrefix(a, b, k) && |synopsis| == |numbers| && g < |numbers| && numbers[g] <= i < k
    requires forall j :: 0 <= j < |numbers| ==> 1 <= numbers[j] <= |a| && synopsis[j] == a[numbers[j] - 1]
    requires forall j, l :: 0 <= j < l < |numbers| ==> numbers[j] < numbers[l]
    requires forall j :: g < j < |numbers| ==> numbers[j] > k
    ensures a[i] !in synopsis
  {
    forall j | 0 <= j < |synopsis| ensures synopsis[j] != a[i] {
      var at := numbers[j] - 1;
      if j <= g {
        assert numbers[j] <= numbers[g];
        assert a[at] == b[at] && a[i] == b[i];
      } else {
        assert a[at] !in b && a[i] == b[i];
      }
    }
  }

  lemma LastShared(a: Chain, b: Chain, k: nat, synopsis: seq<BlockId>, numbers: seq<nat>) returns (s: nat)
    requires Distinct(b) && SharePrefix(a, b, k) && k >= 1 && |synopsis| == |numbers| >= 1
    requires forall j :: 0 <= j < |numbers| ==> 1 <= numbers[j] <= |a| && synopsis[j] == a[numbers[j] - 1]
    requires forall j, l :: 0 <= j < l < |numbers| ==> numbers[j] < numbers[l]
    requires forall j :: 0 <= j < |numbers| - 1 ==> numbers[j + 1] == Step(numbers[j], |a|)
    requires numbers[0] == 1 && numbers[|numbers| - 1] == |a|
    ensures 1 <= s <= k && a[s - 1] in synopsis && k - s <= |a| - k && LastSeen(b, synopsis) == s
    ensures forall i :: s <= i < k ==> a[i] !in synopsis
  {
    var g := GreatestAtMost(numbers, k);
    s := numbers[g];
    CloseToTheFork(numbers, |a|, k, g);
    LastSeenIs(a, b, k, synopsis, numbers, g);
    assert synopsis[g] == a[s - 1];
    forall i | s <= i < k ensures a[i] !in synopsis {
      NotListed(a, b, k, synopsis, numbers, g, i);
    }
  }

  /** A peer that shares the first k >= 1 blocks answers a synopsis with a run of its own chain from the
      greatest entry s <= k on; s is no further back from the fork than the fork is from the sender's
      head; and what it does not send it counts. It refuses the synopsis exactly when the sender's chain
      is too long for its limit. */
  lemma PeersFindTheFork(a: Chain, b: Chain, k: nat, sizeLimit: nat, limit: nat) returns (s: nat)
    requires Distinct(b) && SharePrefix(a, b, k) && k >= 1
    ensures 1 <= s <= k && a[s - 1] in SynopsisOf(a, 0) && k - s <= |a| - k
    ensures forall i :: s <= i < k ==> a[i] !in SynopsisOf(a, 0)
    ensures match Reply(b, SynopsisOf(a, 0), sizeLimit, limit)
      case TooLong => Log2(|a|) >= sizeLimit
      case Answer(ids, remaining) =>
        && Log2(|a|) < sizeLimit
        && |ids| == Min(limit, |b| - s + 1) && |ids| + remaining == |b| - s + 1 && ids == b[s - 1..s - 1 + |ids|]
  {
    var synopsis := SynopsisOf(a, 0);
    SynopsisShape(a);
    NumbersFacts(1, |a|, |a|);
    s := LastShared(a, b, k, synopsis, Numbers(1, |a|, |a|));
    ReplyFrom(b, synopsis, sizeLimit, limit);
  }

  lemma ReplyFrom(b: Chain, synopsis: seq<BlockId>, sizeLimit: nat, limit: nat)
    requires b != []
    ensures var s := LastSeen(b, synopsis);
      match Reply(b, synopsis, sizeLimit, limit)
      case TooLong => |synopsis| > sizeLimit
      case Answer(ids, remaining) =>
        && |synopsis| <= sizeLimit && 1 <= s <= |b|
        && |ids| == Min(limit, |b| - s + 1) && |ids| + remaining == |b| - s + 1 && ids == b[s - 1..s - 1 + |ids|]
  {
    LastSeenInRange(b, synopsis);
  }
}
