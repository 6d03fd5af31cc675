/** transaction_evaluation_state: the object a transaction is evaluated in. It writes straight through
    to the pending state; a caller that sees it fail drops that state. */
module Evaluations {
  import opened Options
  import opened Prices
  import opened Sums
  import opened Ledgers
  import Overlay
  import Ops = Operations
  import opened Transactions

  type Operation = Ops.Operation
  type Evaluation = Ops.Evaluation

  class PendingState {
    var ledger: Ledger

    constructor (l: Ledger)
      ensures ledger == l
    {
      ledger := l;
    }

    /** The producer's pay at the end of a block. */
    method PayProducer(producer: AccountId, maxPay: nat) returns (ok: bool)
      modifies this
      ensures ok <==> PayDelegate(old(ledger), producer, maxPay).Some?
      ensures ok ==> ledger == PayDelegate(old(ledger), producer, maxPay).value
    {
      if producer !in ledger.accounts || ledger.accounts[producer].delegate.None? {
        return false;
      }
      var r := ledger.accounts[producer].delegate.value;
      if r.payRate > 100 || 0 !in ledger.assets {
        return false;
      }
      var accepted := r.payRate * maxPay / 100;
      var base := ledger.assets[0];
      ledger := ledger.(assets := ledger.assets[0 := base.(fees := base.fees - maxPay)]);
      r := r.(pay := r.pay + accepted);
      r := r.(votesFor := r.votesFor + accepted);
      ledger := ledger.(accounts := ledger.accounts[producer := Account(Some(r))]);
      base := ledger.assets[0];
      ledger := ledger.(assets := ledger.assets[0 := base.(supply := base.supply - (maxPay - accepted))]);
      ok := true;
    }
  }

  class TransactionEvaluationState {
    const current: PendingState
    const config: Ops.Config
    var balance: map<AssetId, int>
    var netDelegateVotes: map<AccountId, int>
    var requiredFees: int
    var altFeesPaid: int

    constructor (current: PendingState, config: Ops.Config)
      ensures this.current == current && this.config == config && Value() == Start(current.ledger)
    {
      this.current, this.config := current, config;
      balance, netDelegateVotes, requiredFees, altFeesPaid := map[], map[], 0, 0;
    }

    ghost function Value(): Evaluation
      reads this, current
    {
      Ops.Evaluation(current.ledger, balance, netDelegateVotes, requiredFees, altFeesPaid)
    }

    // ---------- running totals ----------

    method AddBalance(a: AssetId, amount: int)
      modifies this`balance
      ensures Value() == Ops.Move(old(Value()), a, amount)
    {
      if a !in balance {
        balance := balance[a := amount];
      } else {
        balance := balance[a := balance[a] + amount];
      }
    }

    method SubBalance(a: AssetId, amount: int)
      modifies this`balance
      ensures Value() == Ops.Move(old(Value()), a, -amount)
    {
      if a in balance {
        balance := balance[a := balance[a] - amount];
      } else {
        balance := balance[a := -amount];
      }
    }

    method AdjustVote(slate: nat, amount: int) returns (ok: bool)
      modifies this`netDelegateVotes
      ensures ok <==> Ops.AdjustVote(old(Value()), slate, amount, config).Some?
      ensures ok ==> Value() == Ops.AdjustVote(old(Value()), slate, amount, config).value
    {
      if slate == 0 {
        return true;
      }
      if slate !in current.ledger.slates {
        return false;
      }
      var supported := current.ledger.slates[slate];
      var i := 0;
      while i < |supported|
        invariant 0 <= i <= |supported|
        invariant Ops.Votes(netDelegateVotes, supported[i..], amount, config.negativeVotes)
               == Ops.Votes(old(netDelegateVotes), supported, amount, config.negativeVotes)
      {
        var d := Abs(supported[i]);
        assert supported[i..][1..] == supported[i + 1..];
        if config.negativeVotes && supported[i] < 0 {
          netDelegateVotes := netDelegateVotes[d := Get(netDelegateVotes, d) - amount];
        } else {
          netDelegateVotes := netDelegateVotes[d := Get(netDelegateVotes, d) + amount];
        }
        i := i + 1;
      }
      ok := true;
    }

    // ---------- operations ----------

    /** Stores a balance record whose amount changes by `change`, with its votes and running total. */
    method ChangeBalance(k: Condition, record: Balance, change: int) returns (ok: bool)
      modifies this, current
      ensures ok <==> Ops.ChangeBalance(old(Value()), k, record, change, config).Some?
      ensures ok ==> Value() == Ops.ChangeBalance(old(Value()), k, record, change, config).value
    {
      if change < 0 {
        AddBalance(k.asset, -change);
      } else {
        SubBalance(k.asset, change);
      }
      ok := true;
      if k.asset == 0 {
        ok := AdjustVote(k.slate, change);
      }
      current.ledger := current.ledger.(balances := current.ledger.balances[k := record]);
    }

    method Deposit(k: Condition, amount: int) returns (ok: bool)
      modifies this, current
      ensures ok <==> Ops.EvaluateDeposit(old(Value()), k, amount, config).Some?
      ensures ok ==> Value() == Ops.EvaluateDeposit(old(Value()), k, amount, config).value
    {
      if amount <= 0 {
        return false;
      }
      var record := Ops.BalanceOf(current.ledger, k);
      record := record.(deposited := Ops.AverageDate(record, amount, config.now));
      record := record.(amount := record.amount + amount);
      ok := ChangeBalance(k, record, amount);
    }

    method Withdraw(k: Condition, amount: int, permitted: bool) returns (ok: bool)
      modifies this, current
      ensures ok <==> Ops.EvaluateWithdraw(old(Value()), k, amount, permitted, config).Some?
      ensures ok ==> Value() == Ops.EvaluateWithdraw(old(Value()), k, amount, permitted, config).value
    {
      if k !in current.ledger.balances || !permitted || k.asset !in current.ledger.assets {
        return false;
      }
      var y := Ops.YieldDue(current.ledger.assets[k.asset], current.ledger.balances[k], config.now);
      if y.None? {
        return false;
      }
      ok := PayOut(k, amount, y.value);
    }

    /** The yield moves from the fees to the record; then the amount leaves the record for the
        transaction. */
    method PayOut(k: Condition, amount: int, y: nat) returns (ok: bool)
      modifies this, current
      ensures ok <==> Ops.WithdrawPaying(old(Value()), k, amount, y, config).Some?
      ensures ok ==> Value() == Ops.WithdrawPaying(old(Value()), k, amount, y, config).value
    {
      if amount <= 0 || k !in current.ledger.balances || k.asset !in current.ledger.assets
         || amount > current.ledger.balances[k].amount {
        return false;
      }
      PayYield(k, y);
      var record := current.ledger.balances[k];
      record := record.(amount := record.amount - amount);
      ok := ChangeBalance(k, record, -amount);
    }

    method PayYield(k: Condition, y: nat)
      requires k in current.ledger.balances && k.asset in current.ledger.assets
      modifies current
      ensures Value() == Ops.PayYield(old(Value()), k, y, config.now)
    {
      if y > 0 {
        var s, record := current.ledger.assets[k.asset], current.ledger.balances[k];
        s := s.(fees := s.fees - y);
        record := record.(amount := record.amount + y);
        record := record.(deposited := config.now);
        current.ledger := current.ledger.(balances := current.ledger.balances[k := record]);
        current.ledger := current.ledger.(assets := current.ledger.assets[k.asset := s]);
      }
    }

    method Claim(k: Condition, amount: int, permitted: bool) returns (ok: bool)
      modifies this, current
      ensures ok <==> Ops.EvaluateClaim(old(Value()), k, amount, permitted, config).Some?
      ensures ok ==> Value() == Ops.EvaluateClaim(old(Value()), k, amount, permitted, config).value
    {
      if k !in current.ledger.balances {
        return false;
      }
      var record := current.ledger.balances[k];
      if k.asset != 0 || !record.genesis || record.amount != amount || !permitted {
        return false;
      }
      ok := ChangeBalance(k, record.(amount := 0), -amount);
    }

    method Burn(a: AssetId, amount: int, hasMessage: bool, account: AccountId) returns (ok: bool)
      modifies this, current
      ensures ok <==> Ops.EvaluateBurn(old(Value()), a, amount, hasMessage, account, config).Some?
      ensures ok ==> Value() == Ops.EvaluateBurn(old(Value()), a, amount, hasMessage, account, config).value
    {
      if (hasMessage && a != 0) || (a == 0 && amount < config.minBurn) || a !in current.ledger.assets {
        return false;
      }
      var s := current.ledger.assets[a];
      if s.IsMarketIssued() {
        return false;
      }
      s := s.(supply := s.supply - amount);
      current.ledger := current.ledger.(assets := current.ledger.assets[a := s]);
      SubBalance(a, amount);
      ok := account == 0 || Abs(account) in current.ledger.accounts;
    }

    method DefineSlate(id: nat, slate: seq<AccountId>) returns (ok: bool)
      modifies current
      ensures ok <==> Ops.EvaluateDefineSlate(old(Value()), id, slate, config).Some?
      ensures ok ==> Value() == Ops.EvaluateDefineSlate(old(Value()), id, slate, config).value
    {
      if |slate| > config.maxSlate {
        return false;
      }
      if id !in current.ledger.slates {
        var i := 0;
        while i < |slate|
          invariant 0 <= i <= |slate|
          invariant Ops.AreDelegates(current.ledger, slate[..i])
        {
          var d := Abs(slate[i]);
          if d !in current.ledger.accounts || current.ledger.accounts[d].delegate.None? {
            return false;
          }
          assert slate[..i + 1] == slate[..i] + [slate[i]];
          i := i + 1;
        }
        assert slate[..i] == slate;
        current.ledger := current.ledger.(slates := current.ledger.slates[id := slate]);
      }
      ok := true;
    }

    method Bid(k: OrderKey, amount: int, permitted: bool) returns (ok: bool)
      modifies this, current
      ensures ok <==> Ops.EvaluateBid(old(Value()), k, amount, permitted).Some?
      ensures ok ==> Value() == Ops.EvaluateBid(old(Value()), k, amount, permitted).value
    {
      if k.price.ratio == 0 || !permitted || k.price.quote !in current.ledger.assets || amount == 0 {
        return false;
      }
      var order := if k in current.ledger.bids then current.ledger.bids[k] else 0;
      if amount < 0 {
        if k !in current.ledger.bids || -amount > order {
          return false;
        }
        AddBalance(k.price.quote, -amount);
      } else {
        SubBalance(k.price.quote, amount);
      }
      current.ledger := current.ledger.(bids := current.ledger.bids[k := order + amount]);
      ok := true;
    }

    method Ask(k: OrderKey, amount: int, permitted: bool) returns (ok: bool)
      modifies this, current
      ensures ok <==> Ops.EvaluateAsk(old(Value()), k, amount, permitted).Some?
      ensures ok ==> Value() == Ops.EvaluateAsk(old(Value()), k, amount, permitted).value
    {
      if k.price.ratio == 0 || !permitted || k.price.base !in current.ledger.assets || amount == 0 {
        return false;
      }
      var order := if k in current.ledger.asks then current.ledger.asks[k] else 0;
      if amount < 0 {
        if k !in current.ledger.asks || -amount > order {
          return false;
        }
        AddBalance(k.price.base, -amount);
      } else {
        SubBalance(k.price.base, amount);
      }
      current.ledger := current.ledger.(asks := current.ledger.asks[k := order + amount]);
      ok := true;
    }

    method Short(k: OrderKey, amount: int, permitted: bool) returns (ok: bool)
      modifies this, current
      ensures ok <==> Ops.EvaluateShort(old(Value()), k, amount, permitted, config).Some?
      ensures ok ==> Value() == Ops.EvaluateShort(old(Value()), k, amount, permitted, config).value
    {
      if k.price.ratio >= config.maxRate || k.price.quote <= k.price.base || k.price.base != 0
         || 0 !in current.ledger.assets || k.price.quote !in current.ledger.assets
         || !current.ledger.assets[k.price.quote].IsMarketIssued() || amount == 0 {
        return false;
      }
      var order := if k in current.ledger.shorts then current.ledger.shorts[k] else 0;
      if amount < 0 {
        if !permitted || k !in current.ledger.shorts || -amount > order {
          return false;
        }
        AddBalance(0, -amount);
      } else {
        SubBalance(0, amount);
      }
      current.ledger := current.ledger.(shorts := current.ledger.shorts[k := order + amount]);
      ok := true;
    }

    method Cover(k: OrderKey, amount: int, newPrice: Option<Price>, permitted: bool) returns (ok: bool)
      modifies this, current
      ensures ok <==> Ops.EvaluateCover(old(Value()), k, amount, newPrice, permitted, config).Some?
      ensures ok ==> Value() == Ops.EvaluateCover(old(Value()), k, amount, newPrice, permitted, config).value
    {
      if k.price.ratio == 0 || (amount == 0 && newPrice.None?) || amount < 0 || !permitted
         || k !in current.ledger.collateral || k.price.quote !in current.ledger.assets {
        return false;
      }
      var cover := current.ledger.collateral[k];
      var principal := Ops.PrincipalPaid(cover, amount, config);
      if principal < 0 || amount - principal < 0 || cover.payoff - principal < 0 || cover.interest.quote <= cover.interest.base {
        return false;
      }
      var m := Ops.AfterPayment(k, cover, principal, newPrice);
      if m.None? {
        return false;
      }
      PayCover(k, amount, principal, m.value);
      ok := true;
    }

    /** The record leaves its old key before it is stored at the new one. */
    method PayCover(k: OrderKey, amount: int, principal: int, m: Ops.Relocation)
      requires k.price.quote in current.ledger.assets
      modifies this, current
      ensures Value() == Ops.PayCover(old(Value()), k, amount, principal, m)
    {
      var q := k.price.quote;
      var s := current.ledger.assets[q];
      SubBalance(q, amount);
      s := s.(supply := s.supply - principal);
      s := s.(fees := s.fees + (amount - principal));
      current.ledger := current.ledger.(assets := current.ledger.assets[q := s]);
      current.ledger := current.ledger.(collateral := current.ledger.collateral[k := NO_COLLATERAL]);
      if m.landing.Some? {
        current.ledger := current.ledger.(collateral := current.ledger.collateral[m.landing.value := m.rest]);
      } else {
        AddBalance(k.price.base, m.rest.collateral);
      }
    }

    method AddCollateral(k: OrderKey, amount: int) returns (ok: bool)
      modifies this, current
      ensures ok <==> Ops.EvaluateAddCollateral(old(Value()), k, amount).Some?
      ensures ok ==> Value() == Ops.EvaluateAddCollateral(old(Value()), k, amount).value
    {
      if k.price.ratio == 0 || amount <= 0 {
        return false;
      }
      SubBalance(k.price.base, amount);
      if k !in current.ledger.collateral {
        return false;
      }
      var cover := current.ledger.collateral[k];
      cover := cover.(collateral := cover.collateral + amount);
      current.ledger := current.ledger.(collateral := current.ledger.collateral[k := NO_COLLATERAL]);
      var landing := Ops.Landing(k, cover, None);
      if landing.None? {
        return false;
      }
      current.ledger := current.ledger.(collateral := current.ledger.collateral[landing.value := cover]);
      ok := true;
    }

    method RegisterAccount(payRate: nat, permitted: bool) returns (ok: bool)
      modifies this, current
      ensures ok <==> Ops.EvaluateRegisterAccount(old(Value()), payRate, permitted, config).Some?
      ensures ok ==> Value() == Ops.EvaluateRegisterAccount(old(Value()), payRate, permitted, config).value
    {
      requiredFees := requiredFees + config.accountFee;
      if !permitted {
        return false;
      }
      var id := current.ledger.lastAccount + 1;
      current.ledger := current.ledger.(lastAccount := id);
      var record := Account(None);
      if payRate <= 100 {
        record := Account(Some(Delegate(0, payRate, 0)));
        requiredFees := requiredFees + Ops.DelegateFee(payRate, config);
      }
      current.ledger := current.ledger.(accounts := current.ledger.accounts[id := record]);
      ok := true;
    }

    method UpdateAccount(id: AccountId, payRate: nat, permitted: bool) returns (ok: bool)
      modifies this, current
      ensures ok <==> Ops.EvaluateUpdateAccount(old(Value()), id, payRate, permitted, config).Some?
      ensures ok ==> Value() == Ops.EvaluateUpdateAccount(old(Value()), id, payRate, permitted, config).value
    {
      if id !in current.ledger.accounts || !permitted {
        return false;
      }
      var record := current.ledger.accounts[id];
      if record.delegate.Some? && payRate > 100 {
        return false;
      }
      if payRate <= 100 {
        if record.delegate.Some? {
          if record.delegate.value.payRate < payRate {
            return false;
          }
          record := Account(Some(record.delegate.value.(payRate := payRate)));
        } else {
          record := Account(Some(Delegate(0, payRate, 0)));
          requiredFees := requiredFees + Ops.DelegateFee(payRate, config);
        }
      }
      current.ledger := current.ledger.(accounts := current.ledger.accounts[id := record]);
      assert record == old(current.ledger.accounts)[id] ==> current.ledger.accounts == old(current.ledger.accounts);
      ok := true;
    }

    method WithdrawPay(account: AccountId, amount: int, permitted: bool) returns (ok: bool)
      modifies this, current
      ensures ok <==> Ops.EvaluateWithdrawPay(old(Value()), account, amount, permitted).Some?
      ensures ok ==> Value() == Ops.EvaluateWithdrawPay(old(Value()), account, amount, permitted).value
    {
      var id := Abs(account);
      if amount <= 0 || id !in current.ledger.accounts || current.ledger.accounts[id].delegate.None? || !permitted {
        return false;
      }
      var record := current.ledger.accounts[id].delegate.value;
      netDelegateVotes := netDelegateVotes[id := Get(netDelegateVotes, id) - amount];
      if record.pay < amount {
        return false;
      }
      record := record.(pay := record.pay - amount);
      current.ledger := current.ledger.(accounts := current.ledger.accounts[id := Account(Some(record))]);
      AddBalance(0, amount);
      ok := true;
    }

    method CreateAsset(issuer: AccountId, maxSupply: int, permitted: bool) returns (ok: bool)
      modifies this, current
      ensures ok <==> Ops.EvaluateCreateAsset(old(Value()), issuer, maxSupply, permitted, config).Some?
      ensures ok ==> Value() == Ops.EvaluateCreateAsset(old(Value()), issuer, maxSupply, permitted, config).value
    {
      if maxSupply <= 0 || maxSupply > config.maxShares || current.ledger.lastAsset + 1 in current.ledger.assets {
        return false;
      }
      if issuer != MARKET_ISSUED_ASSET && issuer !in current.ledger.accounts {
        return false;
      }
      if !permitted {
        return false;
      }
      requiredFees := requiredFees + config.assetFee;
      var id := current.ledger.lastAsset + 1;
      current.ledger := current.ledger.(lastAsset := id);
      current.ledger := current.ledger.(assets := current.ledger.assets[id := Asset(issuer, 0, maxSupply, 0)]);
      ok := true;
    }

    method UpdateAsset(a: AssetId, issuer: AccountId, permitted: bool) returns (ok: bool)
      modifies current
      ensures ok <==> Ops.EvaluateUpdateAsset(old(Value()), a, issuer, permitted).Some?
      ensures ok ==> Value() == Ops.EvaluateUpdateAsset(old(Value()), a, issuer, permitted).value
    {
      if a !in current.ledger.assets || current.ledger.assets[a].issuer !in current.ledger.accounts || !permitted {
        return false;
      }
      var s := current.ledger.assets[a];
      if issuer != s.issuer && issuer !in current.ledger.accounts {
        return false;
      }
      s := s.(issuer := issuer);
      current.ledger := current.ledger.(assets := current.ledger.assets[a := s]);
      ok := true;
    }

    method IssueAsset(a: AssetId, amount: int, permitted: bool) returns (ok: bool)
      modifies this, current
      ensures ok <==> Ops.EvaluateIssueAsset(old(Value()), a, amount, permitted).Some?
      ensures ok ==> Value() == Ops.EvaluateIssueAsset(old(Value()), a, amount, permitted).value
    {
      if amount <= 0 || a !in current.ledger.assets || current.ledger.assets[a].issuer !in current.ledger.accounts || !permitted {
        return false;
      }
      var s := current.ledger.assets[a];
      if s.supply + amount > s.maxSupply {
        return false;
      }
      s := s.(supply := s.supply + amount);
      AddBalance(a, amount);
      current.ledger := current.ledger.(assets := current.ledger.assets[a := s]);
      ok := true;
    }

    method EvaluateOperation(op: Operation) returns (ok: bool)
      modifies this, current
      ensures ok <==> Ops.Apply(old(Value()), op, config).Some?
      ensures ok ==> Value() == Ops.Apply(old(Value()), op, config).value
    {
      match op {
        case Deposit(k, amount) => ok := Deposit(k, amount);
        case Withdraw(k, amount, permitted) => ok := Withdraw(k, amount, permitted);
        case Claim(k, amount, permitted) => ok := Claim(k, amount, permitted);
        case Burn(a, amount, hasMessage, account) => ok := Burn(a, amount, hasMessage, account);
        case DefineSlate(id, delegates) => ok := DefineSlate(id, delegates);
        case Bid(k, amount, permitted) => ok := Bid(k, amount, permitted);
        case Ask(k, amount, permitted) => ok := Ask(k, amount, permitted);
        case Short(k, amount, permitted) => ok := Short(k, amount, permitted);
        case Cover(k, amount, newPrice, permitted) => ok := Cover(k, amount, newPrice, permitted);
        case AddCollateral(k, amount) => ok := AddCollateral(k, amount);
        case RegisterAccount(payRate, permitted) => ok := RegisterAccount(payRate, permitted);
        case UpdateAccount(id, payRate, permitted) => ok := UpdateAccount(id, payRate, permitted);
        case WithdrawPay(account, amount, permitted) => ok := WithdrawPay(account, amount, permitted);
        case CreateAsset(issuer, maxSupply, permitted) => ok := CreateAsset(issuer, maxSupply, permitted);
        case UpdateAsset(a, issuer, permitted) => ok := UpdateAsset(a, issuer, permitted);
        case IssueAsset(a, amount, permitted) => ok := IssueAsset(a, amount, permitted);
      }
    }

    // ---------- the end of a transaction ----------

    /** The leftovers: checked, valued in the base asset, then booked as fees. */
    method PostEvaluate() returns (ok: bool)
      modifies this, current
      ensures netDelegateVotes == old(netDelegateVotes) && requiredFees == old(requiredFees)
      ensures ok <==> Payable(old(current.ledger), old(balance))
      ensures ok ==> current.ledger == CollectFees(old(current.ledger), old(balance))
      ensures ok ==> Get(balance, 0) == Get(old(balance), 0)
      ensures ok ==> altFeesPaid == old(altFeesPaid) + AltFees(old(current.ledger), old(balance), config)
    {
      balance := balance[0 := Get(balance, 0)];
      ok := SumAltFees();
      if ok {
        ok := BookFees();
        ExtraZero(old(current.ledger), old(balance), config);
      }
    }

    method SumAltFees() returns (ok: bool)
      modifies this`altFeesPaid
      ensures ok ==> forall a :: a in balance ==> balance[a] >= 0
      ensures Payable(current.ledger, balance) ==> ok
      ensures ok ==> altFeesPaid == old(altFeesPaid) + AltFees(current.ledger, balance, config)
    {
      ghost var done: map<AssetId, int> := map[];
      var todo := balance.Keys;
      while todo != {}
        invariant todo !! done.Keys && todo + done.Keys == balance.Keys
        invariant forall a :: a in done ==> done[a] == balance[a] >= 0
        invariant altFeesPaid == old(altFeesPaid) + AltFees(current.ledger, done, config)
        decreases todo
      {
        var a := Overlay.Pick(todo);
        var fee := balance[a];
        if fee < 0 || (a != 0 && fee != 0 && a !in current.ledger.assets) {
          return false;
        }
        if a != 0 && fee != 0 && current.ledger.assets[a].IsMarketIssued() && a in config.medians {
          altFeesPaid := altFeesPaid + ToBase(fee * 2 / 3, config.medians[a]);
        }
        TotalStore(done, AltFeeOf(current.ledger, config), a, fee);
        done := done[a := fee];
        todo := todo - {a};
      }
      assert done.Keys == balance.Keys;
      SameTable(done, balance);
      ok := true;
    }

    method BookFees() returns (ok: bool)
      requires forall a :: a in balance ==> balance[a] >= 0
      modifies current
      ensures ok <==> Payable(old(current.ledger), balance)
      ensures ok ==> current.ledger == CollectFees(old(current.ledger), balance)
    {
      ghost var l := current.ledger;
      ghost var done: map<AssetId, int> := map[];
      NoneBooked(l);
      var todo := balance.Keys;
      while todo != {}
        invariant todo !! done.Keys && todo + done.Keys == balance.Keys
        invariant forall a :: a in done ==> done[a] == balance[a] && (done[a] > 0 ==> a in l.assets)
        invariant current.ledger == CollectFees(l, done)
        decreases todo
      {
        var a := Overlay.Pick(todo);
        if balance[a] > 0 {
          if a !in current.ledger.assets {
            return false;
          }
          var s := current.ledger.assets[a];
          current.ledger := current.ledger.(assets := current.ledger.assets[a := s.(fees := s.fees + balance[a])]);
        }
        BookOne(l, done, a, balance[a]);
        done := done[a := balance[a]];
        todo := todo - {a};
      }
      assert done.Keys == balance.Keys;
      SameTable(done, balance);
      ok := true;
    }

    /** The pending votes go to the delegates. */
    method UpdateDelegateVotes() returns (ok: bool)
      modifies current
      ensures ok <==> Electable(old(current.ledger), netDelegateVotes)
      ensures ok ==> current.ledger == AddVotes(old(current.ledger), netDelegateVotes)
    {
      ghost var l := current.ledger;
      ghost var done: map<AccountId, int> := map[];
      NoneBooked(l);
      var todo := netDelegateVotes.Keys;
      while todo != {}
        invariant todo !! done.Keys && todo + done.Keys == netDelegateVotes.Keys
        invariant forall d :: d in done ==> done[d] == netDelegateVotes[d]
        invariant Electable(l, done) && current.ledger == AddVotes(l, done)
        decreases todo
      {
        var d := Overlay.Pick(todo);
        if d !in current.ledger.accounts || current.ledger.accounts[d].delegate.None? {
          return false;
        }
        var r := current.ledger.accounts[d].delegate.value;
        r := r.(votesFor := r.votesFor + netDelegateVotes[d]);
        current.ledger := current.ledger.(accounts := current.ledger.accounts[d := Account(Some(r))]);
        VoteOne(l, done, d, netDelegateVotes[d]);
        done := done[d := netDelegateVotes[d]];
        todo := todo - {d};
      }
      assert done.Keys == netDelegateVotes.Keys;
      SameTable(done, netDelegateVotes);
      ok := true;
    }

    method Reset()
      modifies this
      ensures Value() == Start(current.ledger)
    {
      balance, netDelegateVotes, requiredFees, altFeesPaid := map[], map[], 0, 0;
    }

    method RunOperations(ops: seq<Operation>) returns (ok: bool)
      modifies this, current
      ensures ok <==> Run(old(Value()), ops, config).Some?
      ensures ok ==> Value() == Run(old(Value()), ops, config).value
    {
      var i := 0;
      while i < |ops|
        invariant 0 <= i <= |ops|
        invariant Run(Value(), ops[i..], config) == Run(old(Value()), ops, config)
      {
        assert ops[i..][1..] == ops[i + 1..];
        ok := EvaluateOperation(ops[i]);
        if !ok {
          return;
        }
        i := i + 1;
      }
      ok := true;
    }

    /** The whole transaction; when it fails the pending state is the caller's to drop. */
    method EvaluateAll(ops: seq<Operation>) returns (ok: bool)
      modifies this, current
      ensures ok <==> Evaluate(old(current.ledger), ops, config).Some?
      ensures ok ==> current.ledger == Evaluate(old(current.ledger), ops, config).value
    {
      Reset();
      ok := RunOperations(ops);
      ghost var e := Value();
      if ok {
        ok := PostEvaluate();
      }
      assert Electable(e.ledger, e.votes) <==> Electable(CollectFees(e.ledger, e.balance), e.votes);
      if ok {
        ok := requiredFees <= Get(balance, 0) + altFeesPaid;
      }
      if ok {
        ok := UpdateDelegateVotes();
      }
    }
  }

  /** An entry of zero for the base asset changes nothing. */
  lemma ExtraZero(l: Ledger, balance: map<AssetId, int>, c: Ops.Config)
    ensures var b := balance[0 := Get(balance, 0)];
      && (Payable(l, b) ==> Payable(l, balance))
      && CollectFees(l, b) == CollectFees(l, balance)
      && AltFees(l, b, c) == AltFees(l, balance, c)
  {
    TotalStore(balance, AltFeeOf(l, c), 0, Get(balance, 0));
    var b := balance[0 := Get(balance, 0)];
    SameTable(CollectFees(l, b).assets, CollectFees(l, balance).assets);
    forall a | a in balance ensures a in b && b[a] == balance[a] {
    }
  }

  lemma NoneBooked(l: Ledger)
    ensures CollectFees(l, map[]) == l && AddVotes(l, map[]) == l
  {
    SameTable(CollectFees(l, map[]).assets, l.assets);
    SameTable(AddVotes(l, map[]).accounts, l.accounts);
  }

  lemma BookOne(l: Ledger, done: map<AssetId, int>, a: AssetId, fee: int)
    requires a !in done && (fee != 0 ==> a in l.assets)
    ensures CollectFees(l, done[a := fee]) ==
      var n := CollectFees(l, done);
      if a in l.assets then n.(assets := n.assets[a := n.assets[a].(fees := n.assets[a].fees + fee)]) else n
  {
    var n := CollectFees(l, done);
    var assets := if a in l.assets then n.assets[a := n.assets[a].(fees := n.assets[a].fees + fee)] else n.assets;
    SameTable(CollectFees(l, done[a := fee]).assets, assets);
  }

  lemma VoteOne(l: Ledger, done: map<AccountId, int>, d: AccountId, change: int)
    requires d !in done && d in l.accounts
    ensures AddVotes(l, done[d := change]) ==
      var n := AddVotes(l, done);
      n.(accounts := n.accounts[d := WithVotes(n.accounts[d], change)])
  {
    var n := AddVotes(l, done);
    SameTable(AddVotes(l, done[d := change]).accounts, n.accounts[d := WithVotes(n.accounts[d], change)]);
  }
}
