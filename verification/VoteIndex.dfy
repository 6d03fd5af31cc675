/** The account table and the ordered index of delegates by votes that the database keeps beside it. */
module AccountTable {
  import opened Arithmetic
  import opened Options

  type AccountId = int

  /** votes_for and pay_balance are in shares of the base asset; rest stands for the statistics that
      nothing here depends on. */
  datatype DelegateStats = DelegateStats(votesFor: int, payBalance: int, rest: nat)

  /** ownerKey 0 is the empty public key that marks a null record. */
  datatype AccountRecord = AccountRecord(id: AccountId, ownerKey: nat, delegateInfo: Option<DelegateStats>, rest: nat)
  {
    predicate IsNull() {
      ownerKey == 0
    }

    predicate IsDelegate() {
      delegateInfo.Some?
    }

    function MakeNull(): AccountRecord {
      this.(ownerKey := 0)
    }

    function Rank(): VoteDel
      requires IsDelegate()
    {
      VoteDel(delegateInfo.value.votesFor, id)
    }
  }

  datatype VoteDel = VoteDel(votes: int, id: AccountId)

  /** More votes first, lowest id on ties. */
  predicate Before(a: VoteDel, b: VoteDel) {
    if a.votes != b.votes then a.votes > b.votes else a.id < b.id
  }

  ghost predicate Ordered(s: seq<VoteDel>) {
    forall i, j :: 0 <= i < j < |s| ==> Before(s[i], s[j])
  }

  /** A store into an ordered map whose keys are the elements. */
  function Insert(s: seq<VoteDel>, v: VoteDel): (r: seq<VoteDel>)
    ensures forall x :: x in r <==> x == v || x in s
    ensures Ordered(s) ==> Ordered(r)
  {
    if s == [] then [v]
    else if Before(v, s[0]) then [v] + s
    else if v == s[0] then s
    else
      var t := Insert(s[1..], v);
      assert Ordered(s) ==> forall x :: x in t ==> Before(s[0], x);
      [s[0]] + t
  }

  function Remove(s: seq<VoteDel>, v: VoteDel): (r: seq<VoteDel>)
    ensures forall x :: x in r ==> x in s
    ensures forall x :: x in s ==> x in r || x == v
    ensures Ordered(s) ==> Ordered(r) && v !in r
  {
    if s == [] then [] else if s[0] == v then s[1..]
    else
      var t := Remove(s[1..], v);
      assert Ordered(s) ==> forall x :: x in t ==> Before(s[0], x);
      [s[0]] + t
  }

  type Accounts = map<AccountId, AccountRecord>

  ghost predicate ById(accounts: Accounts) {
    forall k :: k in accounts ==> accounts[k].id == k
  }

  /** The index holds one entry (votes, id) per delegate account, no others, in ranking order. */
  ghost predicate Ranks(index: seq<VoteDel>, accounts: Accounts) {
    && Ordered(index)
    && (forall v :: v in index ==> v.id in accounts && accounts[v.id].IsDelegate() && accounts[v.id].Rank() == v)
    && (forall k :: k in accounts && accounts[k].IsDelegate() ==> accounts[k].Rank() in index)
  }

  function Store(accounts: Accounts, r: AccountRecord): Accounts {
    if r.IsNull() then accounts - {r.id} else accounts[r.id := r]
  }

  /** There is only one such index: it is a function of the accounts. */
  lemma {:induction false} OrderedUnique(s: seq<VoteDel>, t: seq<VoteDel>)
    requires Ordered(s) && Ordered(t) && forall x :: x in s <==> x in t
    ensures s == t
  {
    assert t != [] ==> t[0] in t;
    if s != [] {
      assert s[0] in t && t[0] in s;
      assert s[0] == t[0];
      forall x
        ensures x in s[1..] <==> x in t[1..]
      {
        assert x in s <==> x == s[0] || x in s[1..];
        assert x in t <==> x == t[0] || x in t[1..];
        assert s[0] !in s[1..] && t[0] !in t[1..];
      }
      OrderedUnique(s[1..], t[1..]);
    }
  }

  lemma IndexDetermined(s: seq<VoteDel>, t: seq<VoteDel>, accounts: Accounts)
    requires ById(accounts) && Ranks(s, accounts) && Ranks(t, accounts)
    ensures s == t
  {
    forall x
      ensures x in s <==> x in t
    {
      assert x in s ==> accounts[x.id].Rank() in t;
      assert x in t ==> accounts[x.id].Rank() in s;
    }
    OrderedUnique(s, t);
  }

  /** The delegates ranked before position i are exactly those that come before its holder. */
  lemma RankCounts(index: seq<VoteDel>, accounts: Accounts, i: nat)
    requires ById(accounts) && Ranks(index, accounts) && i < |index|
    ensures (set k | k in accounts && accounts[k].IsDelegate() && Before(accounts[k].Rank(), index[i]) :: k)
      == set j | 0 <= j < i :: index[j].id
    ensures forall j, k :: 0 <= j < k < |index| ==> index[j].id != index[k].id
  {
    forall k | k in accounts && accounts[k].IsDelegate() && Before(accounts[k].Rank(), index[i])
      ensures exists j :: 0 <= j < i && index[j].id == k
    {
      assert accounts[k].Rank() in index;
      var j :| 0 <= j < |index| && index[j] == accounts[k].Rank();
      assert index[j].id == k;
    }
    forall j, k | 0 <= j < k < |index|
      ensures index[j].id != index[k].id
    {
      assert index[j] in index && index[k] in index && Before(index[j], index[k]);
    }
    forall j | 0 <= j < i
      ensures index[j].id in accounts && Before(accounts[index[j].id].Rank(), index[i])
    {
      assert index[j] in index;
    }
  }

  class AccountDb {
    var accounts: Accounts
    var index: seq<VoteDel>

    constructor ()
      ensures Valid() && accounts == map[] && index == []
    {
      accounts, index := map[], [];
    }

    ghost predicate Valid()
      reads this
    {
      ById(accounts) && Ranks(index, accounts)
    }

    method StoreAccountRecord(r: AccountRecord)
      requires Valid()
      modifies this
      ensures Valid() && accounts == Store(old(accounts), r)
    {
      var isOld := r.id in accounts;
      if r.IsNull() && isOld {
        var was := accounts[r.id];
        accounts := accounts - {r.id};
        if was.IsDelegate() {
          index := Remove(index, was.Rank());
        }
      } else if !r.IsNull() {
        var was := if isOld then accounts[r.id] else r;
        accounts := accounts[r.id := r];
        if isOld && was.IsDelegate() {
          index := Remove(index, was.Rank());
        }
        if r.IsDelegate() {
          index := Insert(index, r.Rank());
        }
      }
    }

    /** A slice of the ranking, read off by walking the index from its start. */
    method GetDelegatesByVote(first: nat, count: nat) returns (ids: seq<AccountId>)
      requires Valid()
      ensures |ids| == if first <= |index| then Min(count, |index| - first) else 0
      ensures forall i :: 0 <= i < |ids| ==> ids[i] == index[first + i].id
    {
      ids := [];
      var pos := 0;
      while |ids| < count && pos < |index|
        invariant pos <= |index| && |ids| <= count
        invariant |ids| == if first <= pos then pos - first else 0
        invariant forall i :: 0 <= i < |ids| ==> ids[i] == index[first + i].id
        decreases |index| - pos
      {
        if pos >= first {
          ids := ids + [index[pos].id];
        }
        pos := pos + 1;
      }
    }
  }
}
