/** The tables as the ledger under the fork tree: committing an overlay is block application, committing
    its undo overlay is the revert, and together they satisfy what the reorganisation relies on. */
module LedgerRules {
  import opened Options
  import opened Overlay
  import opened ForkTree

  function BalanceNull(r: BalanceRecord): bool {
    r.balance == 0
  }

  /** The part of the tables that undo gives back, null balances counting as absent. */
  function Normalised(t: Tables): Tables {
    t.(balances := map k | k in t.balances && !BalanceNull(t.balances[k]) :: t.balances[k], burns := map[], dirty := {})
  }

  ghost predicate Normal(t: Tables) {
    NullFree(t) && Normalised(t) == t
  }

  const EMPTY: Tables :=
    Tables(map[], map[], map[], map[], map[], map[], map[], map[], map[], map[], map[], {})

  type Ledger = t: Tables | Normal(t) ghost witness EMPTY

  lemma ApplyNormal(t: Tables, p: Tables)
    requires Normal(t)
    ensures Normal(Normalised(Apply(t, p)))
  {
    ApplyNullFree(t, p);
  }

  /** Dropping null balances before or after the undo makes no difference. */
  lemma BalancesUndone(balances: map<nat, BalanceRecord>, p: map<nat, BalanceRecord>)
    requires NoNulls(balances, BalanceNull)
    ensures var c := Commit(balances, p, NeverNull);
      var applied := map k | k in c && !BalanceNull(c[k]) :: c[k];
      var r := Commit(applied, Undo(balances, p, NullBalance), NeverNull);
      (map k | k in r && !BalanceNull(r[k]) :: r[k]) == balances
  {
    var c := Commit(balances, p, NeverNull);
    var applied := map k | k in c && !BalanceNull(c[k]) :: c[k];
    var r := Commit(applied, Undo(balances, p, NullBalance), NeverNull);
    assert forall k :: k in r && !BalanceNull(r[k]) <==> k in balances;
  }

  lemma NormalUndone(t: Tables, p: Tables)
    requires Normal(t)
    ensures Normalised(Apply(Normalised(Apply(t, p)), UndoOf(t, p))) == t
  {
    UndoRestores(t, p);
    assert NoNulls(t.balances, BalanceNull) by {
      assert forall k :: k in t.balances ==> k in Normalised(t).balances;
    }
    BalancesUndone(t.balances, p.balances);
  }

  /** Block application from an evaluation that says which records a block writes. */
  function ApplyBlock(evaluate: (Ledger, Block) -> Option<Tables>, l: Ledger, b: Block): Option<(Ledger, Tables)> {
    match evaluate(l, b)
    case None => None
    case Some(p) =>
      ApplyNormal(l, p);
      Some((Normalised(Apply(l, p)), UndoOf(l, p)))
  }

  function RevertBlock(l: Ledger, u: Tables): Ledger {
    ApplyNormal(l, u);
    Normalised(Apply(l, u))
  }

  function BlockRules(genesis: Ledger, evaluate: (Ledger, Block) -> Option<Tables>): Rules<Ledger, Tables> {
    Rules(genesis, (l: Ledger, b: Block) => ApplyBlock(evaluate, l, b), RevertBlock)
  }

  /** Whatever blocks do to the tables, reverting with the undo overlay gives the ledger back. */
  lemma BlockRulesLawful(genesis: Ledger, evaluate: (Ledger, Block) -> Option<Tables>)
    ensures Lawful(BlockRules(genesis, evaluate))
  {
    forall l: Ledger, b: Block | ApplyBlock(evaluate, l, b).Some?
      ensures RevertBlock(ApplyBlock(evaluate, l, b).value.0, ApplyBlock(evaluate, l, b).value.1) == l
    {
      NormalUndone(l, evaluate(l, b).value);
    }
  }
}
