/** What paying the two sides of a fill does to the book, and how much of an asset's supply and debt
    each payment moves. */
module Settlement {
  import opened Options
  import opened Arithmetic
  import opened Prices
  import opened Ledgers
  import opened Matching
  import Ops = Operations

  // ---------- payments ----------

  /** Proceeds go to the owner's plain balance, which supports no slate. */
  function PayOut(l: Ledger, m: Market, owner: nat, a: AssetId, amount: nat): Ledger {
    var k := Condition(owner, a, 0);
    var r := Ops.BalanceOf(l, k);
    l.(balances := l.balances[k := Balance(r.amount + amount, m.now, r.genesis)])
  }

  function AddQuoteFees(b: Book, amount: int): Book {
    b.(quote := b.quote.(fees := b.quote.fees + amount))
  }

  function AddBaseFees(b: Book, amount: int): Book {
    b.(base := b.base.(fees := b.base.fees + amount))
  }

  // ---------- the bid side ----------

  /** A bid too small to buy anything is collected as fees. */
  function BidLeft(o: Order, paid: nat): nat
    requires paid <= o.balance
  {
    var left := o.balance - paid;
    if Quantity(o.(balance := left)) == 0 then 0 else left
  }

  function StoreBidLeft(b: Book, m: Market, o: Order, paid: nat, received: nat, left: nat): Book {
    var n := PayOut(b.l, m, o.key.owner, m.base, received);
    AddQuoteFees(b.(l := n.(bids := n.bids[o.key := left])), o.balance - paid - left)
  }

  function PayBid(b: Book, m: Market, o: Order, paid: nat, received: nat): Book
    requires paid <= o.balance
  {
    StoreBidLeft(b, m, o, paid, received, BidLeft(o, paid))
  }

  /** A remainder too small to bother with goes along with the collateral. */
  function ShortGives(m: Market, o: Order, collateral: nat): nat
    requires collateral <= o.balance
  {
    if o.balance - collateral < m.dust then o.balance else collateral
  }

  function CoverKeyOf(m: Market, o: Order, usd: nat, collateral: nat): Option<OrderKey> {
    var call :- Ops.CallPrice(usd, m.quote, collateral, m.base);
    Some(OrderKey(call, o.key.owner))
  }

  /** The short's position joins whatever cover has its key; what it sells is new supply. */
  function OpenCover(b: Book, m: Market, o: Order, k: OrderKey, usd: nat, given: nat, collateral: nat): Book
    requires given <= o.balance
  {
    var r := CollateralAt(b.l, k);
    var cover := Collateral(r.collateral + collateral, r.payoff + usd, o.key.price, m.now + m.shortPeriod);
    Book(b.l.(collateral := b.l.collateral[k := cover], shorts := b.l.shorts[o.key := o.balance - given]),
         b.quote.(supply := b.quote.supply + usd), b.base)
  }

  /** A short that sells nothing stores nothing, not even what it was to put up. None where the new
      cover would have no call price. */
  function PayShort(b: Book, m: Market, o: Order, f: Fill): Option<Book>
    requires f.shortCollateral <= o.balance
  {
    if f.bidPaid == 0 then Some(b)
    else
      var given := ShortGives(m, o, f.shortCollateral);
      var k :- CoverKeyOf(m, o, f.bidPaid, given + f.askPaid);
      Some(OpenCover(b, m, o, k, f.bidPaid, given, given + f.askPaid))
  }

  // ---------- the ask side ----------

  /** An ask worth nothing in the quote asset is collected as fees. */
  function AskLeft(o: Order, paid: nat): nat
    requires paid <= o.balance
  {
    var left := o.balance - paid;
    if ToQuote(left, o.key.price.ratio) == 0 then 0 else left
  }

  function StoreAskLeft(b: Book, m: Market, o: Order, received: nat, left: nat): Book {
    var n := PayOut(b.l, m, o.key.owner, m.quote, received);
    b.(l := n.(asks := n.asks[o.key := left]))
  }

  /** The dust is booked on the asset record the caller hands over. */
  function PayAsk(b: Book, m: Market, o: Order, paid: nat, received: nat, onQuote: bool): Book
    requires paid <= o.balance
  {
    var left := AskLeft(o, paid);
    var n := StoreAskLeft(b, m, o, received, left);
    if onQuote then AddQuoteFees(n, o.balance - paid - left) else AddBaseFees(n, o.balance - paid - left)
  }

  function PrincipalOf(m: Market, o: Order, received: nat): int {
    if received >= CoverDebt(m, o) then o.balance
    else received - InterestPaid(received, Rate(m, o), RATE_DENOMINATOR)
  }

  lemma RetiresWithin(m: Market, o: Order, received: nat)
    ensures 0 <= PrincipalOf(m, o, received) <= o.balance && PrincipalOf(m, o, received) <= received
  {
    if received < CoverDebt(m, o) {
      PartialPayment(received, o.balance, Rate(m, o), RATE_DENOMINATOR);
    }
  }

  /** A called cover whose term has not run out pays a twentieth of what it gets back. */
  function CallFee(m: Market, o: Order, left: nat): nat {
    if o.expiration > m.now then left * 5000 / 100000 else 0
  }

  /** What is left of a cover's debt when its collateral is gone. */
  function Underwater(o: Order, paid: nat, principal: nat): nat
    requires paid <= o.collateral && principal <= o.balance
  {
    if o.collateral == paid then o.balance - principal else 0
  }

  /** The collateral a payment lets go of: what it pays and, once nothing is owed, all the rest. */
  function Released(o: Order, paid: nat, principal: nat): nat
    requires paid <= o.collateral && principal <= o.balance
  {
    if principal + Underwater(o, paid, principal) == o.balance then o.collateral else paid
  }

  /** Debt leaves the supply; the rest of a payment is interest; debt that nobody pays comes out of the
      fees. */
  function RetireDebt(s: Asset, principal: nat, interest: nat, unpaid: nat): Asset {
    s.(supply := s.supply - principal, fees := s.fees + interest - unpaid)
  }

  function StoreCover(l: Ledger, o: Order, collateral: nat, payoff: nat): Ledger {
    l.(collateral := l.collateral[o.key := Collateral(collateral, payoff, o.interest, o.expiration)])
  }

  /** A cover out of debt gets what is left of its collateral back, less the fee. */
  function CloseCover(b: Book, m: Market, o: Order, left: nat, owed: nat, fee: nat): Book
    requires fee <= left
  {
    if left > 0 && owed == 0 then
      AddBaseFees(b.(l := StoreCover(PayOut(b.l, m, o.key.owner, m.base, left - fee), o, 0, 0)), fee)
    else b.(l := StoreCover(b.l, o, left, owed))
  }

  /** A payment on a cover of which `principal` retires debt. */
  function PayCover(b: Book, m: Market, o: Order, paid: nat, received: nat, principal: nat): Book
    requires paid <= o.collateral && principal <= o.balance && principal <= received
  {
    var unpaid, left := Underwater(o, paid, principal), o.collateral - paid;
    CloseCover(b.(quote := RetireDebt(b.quote, principal, received - principal, unpaid)), m, o,
               left, o.balance - principal - unpaid, CallFee(m, o, left))
  }

  // ---------- what each payment leaves of the order ----------

  /** Nothing, or enough to go on with: a bid that buys a unit, an ask that is worth one, and a short that is no less
      than the dust of its market. */
  lemma LeavesNoDust(m: Market, o: Order, paid: nat)
    requires paid <= o.balance
    ensures BidLeft(o, paid) == 0 || (BidLeft(o, paid) == o.balance - paid && Quantity(o.(balance := o.balance - paid)) > 0)
    ensures AskLeft(o, paid) == 0 || (AskLeft(o, paid) == o.balance - paid && (o.balance - paid) * o.key.price.ratio >= PRECISION)
    ensures var left := o.balance - ShortGives(m, o, paid); left == 0 || (left == o.balance - paid && left >= m.dust)
  {
    DivBounds((o.balance - paid) * o.key.price.ratio, PRECISION);
  }

  // ---------- what each payment moves ----------

  /** The supply of an asset that nobody holds, going by the engine's records for its own two. */
  ghost function Unheld(b: Book, m: Market, a: AssetId): int {
    (if a == m.quote then b.quote.supply - b.quote.fees
     else if a == m.base then b.base.supply - b.base.fees
     else Supply(b.l, a) - Fees(b.l, a))
    - (Holdings(b.l, a) - Fees(b.l, a))
  }

  ghost function Undebted(b: Book, m: Market, a: AssetId): int {
    (if a == m.quote then b.quote.supply else if a == m.base then b.base.supply else Supply(b.l, a)) - Debt(b.l, a)
  }

  predicate Priced(m: Market) {
    m.quote > m.base && m.base >= 0
  }

  /** From b to n: asset a's unheld supply grows by x, its undebted supply by y. */
  ghost predicate Moves(b: Book, n: Book, m: Market, a: AssetId, x: int, y: int) {
    Unheld(n, m, a) == Unheld(b, m, a) + x && Undebted(n, m, a) == Undebted(b, m, a) + y
  }

  lemma PayOutCounts(b: Book, m: Market, owner: nat, x: AssetId, amount: nat, a: AssetId)
    ensures Moves(b, b.(l := PayOut(b.l, m, owner, x, amount)), m, a, if a == x then 0 - amount else 0, 0)
  {
    var k := Condition(owner, x, 0);
    StoreBalance(b.l, k, PayOut(b.l, m, owner, x, amount).balances[k], a);
  }

  lemma PayBidCounts(b: Book, m: Market, o: Order, paid: nat, received: nat, a: AssetId)
    requires Priced(m) && paid <= o.balance && o.key.price.quote == m.quote && Get(b.l.bids, o.key) == o.balance
    ensures Moves(b, PayBid(b, m, o, paid, received), m, a,
                  if a == m.quote then paid else if a == m.base then 0 - received else 0, 0)
  {
    StoreBidLeftCounts(b, m, o, paid, received, BidLeft(o, paid), a);
  }

  lemma StoreBidLeftCounts(b: Book, m: Market, o: Order, paid: nat, received: nat, left: nat, a: AssetId)
    requires Priced(m) && o.key.price.quote == m.quote && Get(b.l.bids, o.key) == o.balance
    ensures Moves(b, StoreBidLeft(b, m, o, paid, received, left), m, a,
                  if a == m.quote then paid else if a == m.base then 0 - received else 0, 0)
  {
    PayOutCounts(b, m, o.key.owner, m.base, received, a);
    StoreBid(PayOut(b.l, m, o.key.owner, m.base, received), o.key, left, a);
  }

  lemma StoreAskLeftCounts(b: Book, m: Market, o: Order, received: nat, left: nat, a: AssetId)
    requires Priced(m) && o.key.price.base == m.base && Get(b.l.asks, o.key) == o.balance
    ensures Moves(b, StoreAskLeft(b, m, o, received, left), m, a,
                  if a == m.base then o.balance - left else if a == m.quote then 0 - received else 0, 0)
  {
    PayOutCounts(b, m, o.key.owner, m.quote, received, a);
    StoreAsk(PayOut(b.l, m, o.key.owner, m.quote, received), o.key, left, a);
  }

  /** Dust on the base record stays where it was; on the quote record it changes sides. */
  lemma PayAskCounts(b: Book, m: Market, o: Order, paid: nat, received: nat, onQuote: bool, a: AssetId)
    requires Priced(m) && paid <= o.balance && o.key.price.base == m.base && Get(b.l.asks, o.key) == o.balance
    ensures var dust := if onQuote then o.balance - paid - AskLeft(o, paid) else 0;
      Moves(b, PayAsk(b, m, o, paid, received, onQuote), m, a,
            if a == m.base then paid + dust else if a == m.quote then 0 - received - dust else 0, 0)
  {
    StoreAskLeftCounts(b, m, o, received, AskLeft(o, paid), a);
  }

  lemma OpenCoverCounts(b: Book, m: Market, o: Order, k: OrderKey, usd: nat, given: nat, collateral: nat, a: AssetId)
    requires Priced(m) && m.base == 0 && given <= o.balance && Get(b.l.shorts, o.key) == o.balance && k.price.quote == m.quote
    ensures Moves(b, OpenCover(b, m, o, k, usd, given, collateral), m, a,
                  if a == m.quote then usd else if a == m.base then given - collateral else 0, 0)
  {
    var n := OpenCover(b, m, o, k, usd, given, collateral);
    StoreCollateral(b.l, k, n.l.collateral[k], a);
    StoreShort(b.l.(collateral := n.l.collateral), o.key, o.balance - given, a);
  }

  /** A filled short's collateral and what it bought become the new cover's; what it sold is new supply
      and new debt. One that sells nothing moves nothing. */
  lemma PayShortCounts(b: Book, m: Market, o: Order, f: Fill, a: AssetId)
    requires Priced(m) && m.base == 0 && f.shortCollateral <= o.balance && PayShort(b, m, o, f).Some?
    requires f.bidPaid > 0 ==> Get(b.l.shorts, o.key) == o.balance
    ensures Moves(b, PayShort(b, m, o, f).value, m, a,
                  if f.bidPaid == 0 then 0 else if a == m.quote then f.bidPaid else if a == m.base then 0 - f.askPaid else 0, 0)
  {
    if f.bidPaid > 0 {
      var given := ShortGives(m, o, f.shortCollateral);
      var k := CoverKeyOf(m, o, f.bidPaid, given + f.askPaid).value;
      OpenCoverCounts(b, m, o, k, f.bidPaid, given, given + f.askPaid, a);
    }
  }

  lemma StoreCoverCounts(b: Book, m: Market, o: Order, collateral: nat, payoff: nat, a: AssetId)
    requires Priced(m) && o.key.price.quote == m.quote
    ensures var r := CollateralAt(b.l, o.key);
      Moves(b, b.(l := StoreCover(b.l, o, collateral, payoff)), m, a,
            if a == 0 then r.collateral - collateral else 0, if a == m.quote then r.payoff - payoff else 0)
  {
    StoreCollateral(b.l, o.key, StoreCover(b.l, o, collateral, payoff).collateral[o.key], a);
  }

  lemma CloseCoverCounts(b: Book, m: Market, o: Order, left: nat, owed: nat, fee: nat, a: AssetId)
    requires Priced(m) && o.key.price.quote == m.quote && fee <= left
    ensures var r, out := CollateralAt(b.l, o.key), if owed == 0 then left else 0;
      Moves(b, CloseCover(b, m, o, left, owed, fee), m, a,
            (if a == 0 then r.collateral - (left - out) else 0) - (if a == m.base then out else 0),
            if a == m.quote then r.payoff - owed else 0)
  {
    if left > 0 && owed == 0 {
      var n := b.(l := PayOut(b.l, m, o.key.owner, m.base, left - fee));
      PayOutCounts(b, m, o.key.owner, m.base, left - fee, a);
      StoreCoverCounts(n, m, o, 0, 0, a);
    } else {
      StoreCoverCounts(b, m, o, left, owed, a);
    }
  }

  /** A cover's payment, out of the bid's hands: the quote asset loses what was received, less the debt
      that is forgiven; the collateral let go of leaves asset 0, where collateral is counted, for the
      base asset, which gains what was paid of it. Whatever the book holds at the cover's key beyond what
      the engine loaded goes with it. */
  lemma PayCoverCounts(b: Book, m: Market, o: Order, paid: nat, received: nat, principal: nat, a: AssetId)
    requires Priced(m) && o.key.price.quote == m.quote
    requires paid <= o.collateral && principal <= o.balance && principal <= received
    ensures var r, unpaid := CollateralAt(b.l, o.key), Underwater(o, paid, principal);
      var released := Released(o, paid, principal);
      Moves(b, PayCover(b, m, o, paid, received, principal), m, a,
            if a == m.quote then unpaid - received
            else (if a == 0 then r.collateral - o.collateral + released else 0) + (if a == m.base then paid - released else 0),
            if a == m.quote then unpaid + r.payoff - o.balance else 0)
  {
    var unpaid, left := Underwater(o, paid, principal), o.collateral - paid;
    var n := b.(quote := RetireDebt(b.quote, principal, received - principal, unpaid));
    CloseCoverCounts(n, m, o, left, o.balance - principal - unpaid, CallFee(m, o, left), a);
  }

  // ---------- what each payment leaves alone ----------

  predicate SameOrders(l: Ledger, n: Ledger) {
    n.bids == l.bids && n.asks == l.asks && n.shorts == l.shorts
  }

  lemma PayCoverLeaves(b: Book, m: Market, o: Order, paid: nat, received: nat, principal: nat)
    requires paid <= o.collateral && principal <= o.balance && principal <= received
    ensures SameOrders(b.l, PayCover(b, m, o, paid, received, principal).l)
  {
  }

  lemma PayAskLeaves(b: Book, m: Market, o: Order, paid: nat, received: nat, onQuote: bool)
    requires paid <= o.balance
    ensures SameOrders(b.l.(asks := b.l.asks[o.key := AskLeft(o, paid)]), PayAsk(b, m, o, paid, received, onQuote).l)
  {
  }

  lemma PayBidLeaves(b: Book, m: Market, o: Order, paid: nat, received: nat)
    requires paid <= o.balance
    ensures SameOrders(b.l.(bids := b.l.bids[o.key := BidLeft(o, paid)]), PayBid(b, m, o, paid, received).l)
  {
  }

  lemma PayShortLeaves(b: Book, m: Market, o: Order, f: Fill)
    requires f.shortCollateral <= o.balance && PayShort(b, m, o, f).Some?
    ensures SameOrders(if f.bidPaid == 0 then b.l else b.l.(shorts := b.l.shorts[o.key := o.balance - ShortGives(m, o, f.shortCollateral)]),
                       PayShort(b, m, o, f).value.l)
  {
  }

  /** A payment touches the covers at the key of the cover it opens, or of the one it pays. */
  lemma PayShortCovers(b: Book, m: Market, o: Order, f: Fill, k: OrderKey)
    requires f.shortCollateral <= o.balance && PayShort(b, m, o, f).Some?
    requires f.bidPaid > 0 ==> CoverKeyOf(m, o, f.bidPaid, ShortGives(m, o, f.shortCollateral) + f.askPaid) != Some(k)
    ensures CollateralAt(PayShort(b, m, o, f).value.l, k) == CollateralAt(b.l, k)
  {
  }

  lemma StoreCoverAt(l: Ledger, o: Order, collateral: nat, payoff: nat, k: OrderKey)
    ensures CollateralAt(StoreCover(l, o, collateral, payoff), k) ==
      if k == o.key then Collateral(collateral, payoff, o.interest, o.expiration) else CollateralAt(l, k)
  {
  }

  lemma CloseCoverCovers(b: Book, m: Market, o: Order, left: nat, owed: nat, fee: nat, k: OrderKey)
    requires fee <= left
    ensures CollateralAt(CloseCover(b, m, o, left, owed, fee).l, k) == if k != o.key then CollateralAt(b.l, k)
      else Collateral(if owed == 0 then 0 else left, owed, o.interest, o.expiration)
  {
    if left > 0 && owed == 0 {
      StoreCoverAt(PayOut(b.l, m, o.key.owner, m.base, left - fee), o, 0, 0, k);
    } else {
      StoreCoverAt(b.l, o, left, owed, k);
    }
  }

  lemma PayCoverCovers(b: Book, m: Market, o: Order, paid: nat, received: nat, principal: nat, k: OrderKey)
    requires paid <= o.collateral && principal <= o.balance && principal <= received
    ensures var n, owed := PayCover(b, m, o, paid, received, principal), o.balance - principal - Underwater(o, paid, principal);
      CollateralAt(n.l, k) == if k != o.key then CollateralAt(b.l, k)
        else Collateral(if owed == 0 then 0 else o.collateral - paid, owed, o.interest, o.expiration)
  {
    var unpaid, left := Underwater(o, paid, principal), o.collateral - paid;
    var n := b.(quote := RetireDebt(b.quote, principal, received - principal, unpaid));
    CloseCoverCovers(n, m, o, left, o.balance - principal - unpaid, CallFee(m, o, left), k);
  }
}
