/** The yield paid on a withdrawal: a share of the fee pool that grows with the deposit's age, computed
    in 128-bit unsigned words with truncating divisions. */
module Yields {
  import opened Options
  import opened Arithmetic
  import opened Prices

  const MIN_YIELD_PERIOD: int := 60 * 60 * 24
  const YEAR: nat := 360 * 24 * 365 * 10
  const SCALE: nat := 1_000_000
  const WORD: nat := 0x1_0000_0000_0000_0000_0000_0000_0000_0000
  const HALF_WORD: nat := 0x1_0000_0000_0000_0000
  const MAX_AMOUNT: int := 0x7fff_ffff_ffff_ffff

  function Mul(a: nat, b: nat): nat {
    a * b % WORD
  }

  /** The fraction of a year that has passed, of x. */
  function Aged(x: nat, elapsed: nat): nat {
    Mul(x, elapsed) / YEAR
  }

  /** Under a year, four fifths grow linearly with age and the rest with its square. */
  function Curve(full: nat, elapsed: nat): nat {
    if elapsed < YEAR then
      var linear := Mul(full, 8) / 10;
      var square := full - linear;
      (Aged(linear, elapsed) + Aged(Aged(square, elapsed), elapsed)) % WORD
    else
      full
  }

  /** The amount computed before the last narrowing and the cut-off at the pool. */
  function Unrounded(amount: nat, pool: nat, circulating: nat, elapsed: nat): nat
    requires circulating > 0
  {
    Curve(Mul(Mul(amount, SCALE), pool) / circulating, elapsed) / SCALE
  }

  /** None where the division by the circulating supply fails. */
  function Yield(amount: int, pool: int, supply: int, elapsed: int): Option<nat> {
    if amount <= 0 || supply <= 0 || pool <= 0 || elapsed <= MIN_YIELD_PERIOD then Some(0)
    else
      var circulating: nat := (supply - pool) % WORD;
      if circulating == 0 then None
      else
        var y := Unrounded(amount, pool, circulating, elapsed) % HALF_WORD;
        Some(if 0 < y < pool then y else 0)
  }

  // ---------- bounds, whatever wraps ----------

  lemma MulWithin(a: nat, b: nat)
    ensures Mul(a, b) <= a * b
  {
    DivBounds(a * b, WORD);
  }

  /** Scaling by an age under a year does not increase. */
  lemma AgedWithin(x: nat, elapsed: nat)
    requires elapsed < YEAR
    ensures Aged(x, elapsed) <= x
  {
    MulWithin(x, elapsed);
    MulMono(elapsed, YEAR, x);
    DivAtMost(Mul(x, elapsed), YEAR, x);
  }

  lemma CurveWithin(full: nat, elapsed: nat)
    ensures Curve(full, elapsed) <= full
  {
    if elapsed < YEAR {
      MulWithin(full, 8);
      var linear := Mul(full, 8) / 10;
      AgedWithin(linear, elapsed);
      AgedWithin(full - linear, elapsed);
      AgedWithin(Aged(full - linear, elapsed), elapsed);
      ModWithin(Aged(linear, elapsed) + Aged(Aged(full - linear, elapsed), elapsed), WORD);
    }
  }

  lemma ScaledWithin(amount: nat, pool: nat)
    ensures Mul(Mul(amount, SCALE), pool) <= (amount * pool) * SCALE
  {
    MulWithin(amount, SCALE);
    MulWithin(Mul(amount, SCALE), pool);
    MulMono(Mul(amount, SCALE), amount * SCALE, pool);
    SwapFactors(amount, SCALE, pool);
  }

  lemma Unscaled(y: nat, full: nat, circulating: nat, share: nat, scale: nat)
    requires scale > 0 && y * scale <= full && full * circulating <= share * scale
    ensures y * circulating <= share
  {
    MulMono(y * scale, full, circulating);
    SwapFactors(y, scale, circulating);
    Cancel(y * circulating, share, scale);
  }

  lemma ShareBound(scaled: nat, share: nat, circulating: nat, elapsed: nat)
    requires circulating > 0 && scaled <= share * SCALE
    ensures Curve(scaled / circulating, elapsed) / SCALE * circulating <= share
  {
    var full := scaled / circulating;
    DivBounds(scaled, circulating);
    CurveWithin(full, elapsed);
    DivBounds(Curve(full, elapsed), SCALE);
    Unscaled(Curve(full, elapsed) / SCALE, full, circulating, share, SCALE);
  }

  lemma ShareOfPool(amount: nat, pool: nat, circulating: nat, elapsed: nat)
    requires circulating > 0
    ensures Unrounded(amount, pool, circulating, elapsed) * circulating <= amount * pool
  {
    ScaledWithin(amount, pool);
    ProductNat(amount, pool);
    ShareBound(Mul(Mul(amount, SCALE), pool), amount * pool, circulating, elapsed);
  }

  lemma Narrowed(amount: nat, pool: nat, supply: nat, elapsed: nat)
    requires supply <= MAX_AMOUNT && 0 < pool < supply
    requires Yield(amount, pool, supply, elapsed).Some?
    ensures Yield(amount, pool, supply, elapsed).value * (supply - pool) <= amount * pool
  {
    var circulating := supply - pool;
    var y := Unrounded(amount, pool, circulating, elapsed);
    ShareOfPool(amount, pool, circulating, elapsed);
    ModWithin(circulating, WORD);
    ModWithin(y, HALF_WORD);
    MulMono(Yield(amount, pool, supply, elapsed).value, y, circulating);
  }

  /** The yield is below the pool, and is no more than the withdrawn share of the pool. */
  lemma YieldBounded(amount: int, pool: int, supply: int, elapsed: int)
    requires supply <= MAX_AMOUNT && 0 < pool && Yield(amount, pool, supply, elapsed).Some?
    ensures 0 <= Yield(amount, pool, supply, elapsed).value < pool
    ensures pool < supply && 0 <= amount ==>
      Yield(amount, pool, supply, elapsed).value * (supply - pool) <= amount * pool
  {
    var y := Yield(amount, pool, supply, elapsed).value;
    if pool < supply && 0 <= amount {
      MulMono(0, amount, pool);
      if y > 0 {
        Narrowed(amount, pool, supply, elapsed);
      }
    }
  }

  // ---------- monotone in the age of the deposit ----------

  const MAX_SCALED: nat := MAX_SHARES * SCALE

  /** Within a year nothing wraps, so a younger and smaller part grows into no more. */
  lemma AgedMono(x: nat, y: nat, young: nat, old_: nat)
    requires x <= y <= MAX_SCALED && young <= old_ < YEAR
    ensures Aged(x, young) <= Aged(y, old_)
  {
    MulMono(x, y, young);
    MulMono(young, old_, y);
    MulMono(old_, YEAR, y);
    ProductNat(x, young);
    ModWithin(x * young, WORD);
    ModWithin(y * old_, WORD);
    DivMono(x * young, y * old_, YEAR);
  }

  /** The two parts a full yield is split into, and their sum as it ages. */
  lemma CurveParts(full: nat, elapsed: nat)
    requires full <= MAX_SCALED && elapsed < YEAR
    ensures var linear := full * 8 / 10;
      && linear <= full
      && Curve(full, elapsed) == Aged(linear, elapsed) + Aged(Aged(full - linear, elapsed), elapsed)
  {
    ModWithin(full * 8, WORD);
    var linear := full * 8 / 10;
    AgedWithin(linear, elapsed);
    AgedWithin(full - linear, elapsed);
    AgedWithin(Aged(full - linear, elapsed), elapsed);
    ModWithin(Aged(linear, elapsed) + Aged(Aged(full - linear, elapsed), elapsed), WORD);
  }

  lemma CurveMono(full: nat, young: nat, old_: nat)
    requires full <= MAX_SCALED && young <= old_
    ensures Curve(full, young) <= Curve(full, old_)
  {
    if old_ >= YEAR {
      CurveWithin(full, young);
    } else {
      var linear := full * 8 / 10;
      CurveParts(full, young);
      CurveParts(full, old_);
      AgedMono(linear, linear, young, old_);
      AgedMono(full - linear, full - linear, young, old_);
      AgedWithin(full - linear, old_);
      AgedMono(Aged(full - linear, young), Aged(full - linear, old_), young, old_);
    }
  }

  /** What a withdrawal of no more than the circulating supply can scale to. */
  lemma FullBound(amount: nat, pool: nat, circulating: nat)
    requires 0 < amount <= circulating && circulating + pool <= MAX_SHARES
    ensures Mul(Mul(amount, SCALE), pool) == (amount * pool) * SCALE
    ensures Mul(Mul(amount, SCALE), pool) / circulating <= pool * SCALE
  {
    ModWithin(amount * SCALE, WORD);
    MulMono(amount * SCALE, MAX_SCALED, pool);
    MulMono(pool, MAX_SHARES, MAX_SCALED);
    ProductNat(amount * SCALE, pool);
    ModWithin((amount * SCALE) * pool, WORD);
    SwapFactors(amount, SCALE, pool);
    MulMono(amount, circulating, pool * SCALE);
    assert amount * (pool * SCALE) == (amount * pool) * SCALE;
    DivAtMost((amount * pool) * SCALE, circulating, pool * SCALE);
  }

  lemma RoundedMono(full: nat, young: nat, old_: nat)
    requires full <= MAX_SCALED && young <= old_
    ensures Curve(full, young) / SCALE <= Curve(full, old_) / SCALE
  {
    CurveMono(full, young, old_);
    DivMono(Curve(full, young), Curve(full, old_), SCALE);
  }

  lemma UnroundedMono(amount: nat, pool: nat, circulating: nat, young: nat, old_: nat)
    requires 0 < amount <= circulating && circulating + pool <= MAX_SHARES && young <= old_
    ensures Unrounded(amount, pool, circulating, young) <= Unrounded(amount, pool, circulating, old_)
  {
    FullBound(amount, pool, circulating);
    MulMono(pool, MAX_SHARES, SCALE);
    RoundedMono(Mul(Mul(amount, SCALE), pool) / circulating, young, old_);
  }

  /** Less than everything in circulation never reaches the pool. */
  lemma UnderThePool(amount: nat, pool: nat, circulating: nat, elapsed: nat)
    requires 0 < amount < circulating && 0 < pool
    ensures Unrounded(amount, pool, circulating, elapsed) < pool
  {
    ShareOfPool(amount, pool, circulating, elapsed);
    var u := Unrounded(amount, pool, circulating, elapsed);
    MulMono(amount + 1, circulating, pool);
    CancelLess(u, pool, circulating);
  }

  lemma AgedLess(x: nat)
    requires 0 < x
    ensures Aged(x, YEAR - 1) < x
  {
    MulWithin(x, YEAR - 1);
    DivBounds(Mul(x, YEAR - 1), YEAR);
    CancelLess(Aged(x, YEAR - 1), x, YEAR);
  }

  lemma AgedTwoShares()
    ensures SCALE <= Aged(8 * SCALE / 5, YEAR - 1)
  {
  }

  /** The last second of the year still costs something, and leaves most of it. */
  lemma LastSecond(full: nat)
    requires 2 * SCALE <= full <= MAX_SCALED
    ensures SCALE <= Curve(full, YEAR - 1) < full
  {
    var linear := full * 8 / 10;
    var square := full - linear;
    var grown := Aged(square, YEAR - 1);
    CurveParts(full, YEAR - 1);
    AgedTwoShares();
    AgedMono(8 * SCALE / 5, linear, YEAR - 1, YEAR - 1);
    AgedWithin(square, YEAR - 1);
    AgedWithin(grown, YEAR - 1);
    AgedLess(linear);
  }

  /** Everything in circulation: ahead of the cut-off, the whole pool after a year. */
  lemma WholePool(pool: nat, circulating: nat)
    requires 2 <= pool && 0 < circulating && circulating + pool <= MAX_SHARES
    ensures Unrounded(circulating, pool, circulating, YEAR) == pool
    ensures 0 < Unrounded(circulating, pool, circulating, YEAR - 1) < pool
  {
    FullBound(circulating, pool, circulating);
    SwapFactors(circulating, pool, SCALE);
    SwapFactors(circulating, SCALE, pool);
    assert (circulating * pool) * SCALE == (pool * SCALE) * circulating;
    DivAtLeast((circulating * pool) * SCALE, circulating, pool * SCALE);
    LastSecond(pool * SCALE);
  }

  /** The holder of everything in circulation is paid something a second before the year is over, and
      nothing when it is. */
  lemma WholeSupply(pool: nat, circulating: nat)
    requires 2 <= pool && 0 < circulating && circulating + pool <= MAX_SHARES
    ensures var young := Yield(circulating, pool, circulating + pool, YEAR - 1);
      young.Some? && 0 < young.value < pool
    ensures Yield(circulating, pool, circulating + pool, YEAR) == Some(0)
  {
    WholePool(pool, circulating);
    ModWithin(circulating, WORD);
    ModWithin(pool, HALF_WORD);
    ModWithin(Unrounded(circulating, pool, circulating, YEAR - 1), HALF_WORD);
  }

  predicate Grows(amount: int, pool: int, supply: int, young: int, old_: int) {
    && Yield(amount, pool, supply, young).Some?
    && Yield(amount, pool, supply, old_).Some?
    && Yield(amount, pool, supply, young).value <= Yield(amount, pool, supply, old_).value
  }

  lemma YieldGrows(amount: int, pool: int, supply: int, young: int, old_: int)
    requires 0 < amount <= supply - pool && 0 < pool && supply <= MAX_SHARES && young <= old_
    requires amount < supply - pool || pool == 1
    ensures Grows(amount, pool, supply, young, old_)
  {
    var circulating := supply - pool;
    ModWithin(circulating, WORD);
    if young > MIN_YIELD_PERIOD && amount < circulating {
      UnroundedMono(amount, pool, circulating, young, old_);
      UnderThePool(amount, pool, circulating, old_);
      ModWithin(Unrounded(amount, pool, circulating, young), HALF_WORD);
      ModWithin(Unrounded(amount, pool, circulating, old_), HALF_WORD);
    }
  }

  /** An older deposit never yields less, exactly when the withdrawal is not everything in
      circulation (or the pool is a single share, which never yields). */
  lemma YieldMonotone(amount: int, pool: int, supply: int)
    requires 0 < amount <= supply - pool && 0 < pool && supply <= MAX_SHARES
    ensures (forall young, old_ :: young <= old_ ==> Grows(amount, pool, supply, young, old_))
      <==> (amount < supply - pool || pool == 1)
  {
    if amount < supply - pool || pool == 1 {
      forall young, old_ | young <= old_ ensures Grows(amount, pool, supply, young, old_) {
        YieldGrows(amount, pool, supply, young, old_);
      }
    } else {
      WholeSupply(pool, amount);
      assert !Grows(amount, pool, supply, YEAR - 1, YEAR);
    }
  }

  // ---------- in figures ----------

  lemma AgedIs(x: nat, elapsed: nat)
    requires x <= MAX_SCALED && elapsed < YEAR
    ensures Aged(x, elapsed) * 31_536_000 <= x * elapsed < Aged(x, elapsed) * 31_536_000 + 31_536_000
  {
    MulMono(x, MAX_SCALED, elapsed);
    MulMono(elapsed, YEAR, MAX_SCALED);
    ProductNat(x, elapsed);
    ModWithin(x * elapsed, WORD);
    DivBounds(x * elapsed, YEAR);
  }

  /** Products with the age, for the bounds below: four fifths and one fifth of x, times e. */
  lemma SplitAged(x: nat, linear: nat, e: nat)
    requires linear == x * 8 / 10
    ensures 10 * (linear * e) <= 8 * (x * e) < 10 * (linear * e) + 10 * e + 1
    ensures (x - linear) * e == x * e - linear * e
  {
    DivBounds(x * 8, 10);
    MulMono(10 * linear, 8 * x, e);
    MulMono(8 * x, 10 * linear + 10, e);
    assert (10 * linear + 10) * e == 10 * (linear * e) + 10 * e;
  }

  /** The second part, aged twice. */
  lemma AgedTwice(x: nat, e: nat)
    requires x <= MAX_SCALED && e < YEAR
    ensures var c := Aged(Aged(x, e), e) * (31_536_000 * 31_536_000);
      c <= x * e * e < c + 2 * (31_536_000 * 31_536_000)
  {
    var b := Aged(x, e);
    AgedWithin(x, e);
    AgedIs(x, e);
    AgedIs(b, e);
    MulMono(b * 31_536_000, x * e, e);
    MulMono(x * e, b * 31_536_000 + 31_536_000, e);
    assert (b * 31_536_000) * e == (b * e) * 31_536_000;
    assert (b * 31_536_000 + 31_536_000) * e == (b * e) * 31_536_000 + 31_536_000 * e;
  }

  /** Before a year of y seconds is over, the fraction (8 e y + 2 e e) / (10 y y) of the full yield is due at age e, but
      for less than four millionths of a share; from then on all of it. */
  lemma CurveIs(full: nat, e: nat)
    requires full <= MAX_SCALED
    ensures e >= 31_536_000 ==> Curve(full, e) == full
    ensures e < 31_536_000 ==>
      var y, curve := 31_536_000, Curve(full, e);
      && curve * (10 * y * y) < 8 * (full * e) * y + 2 * (full * e * e) + 10 * y * y
      && 8 * (full * e) * y + 2 * (full * e * e) < (curve + 4) * (10 * y * y)
  {
    if e < YEAR {
      var linear := full * 8 / 10;
      CurveParts(full, e);
      SplitAged(full, linear, e);
      AgedIs(linear, e);
      AgedTwice(full - linear, e);
      SplitTwice(full, linear, e);
      Joined(Aged(linear, e), Aged(Aged(full - linear, e), e), full * e, full * e * e, linear * e, linear * e * e, e, e * e);
    }
  }

  lemma SplitTwice(x: nat, linear: nat, e: nat)
    requires linear == x * 8 / 10
    ensures 10 * (linear * e * e) <= 8 * (x * e * e) <= 10 * (linear * e * e) + 10 * (e * e)
    ensures (x - linear) * e * e == x * e * e - linear * e * e
    ensures e < YEAR ==> e * e < 31_536_000 * 31_536_000
  {
    SplitAged(x, linear, e);
    MulMono(10 * (linear * e), 8 * (x * e), e);
    MulMono(8 * (x * e), 10 * (linear * e) + 10 * e, e);
    assert (10 * (linear * e) + 10 * e) * e == 10 * (linear * e * e) + 10 * (e * e);
    assert ((x - linear) * e) * e == (x * e - linear * e) * e;
    if e < YEAR {
      MulMono(e, 31_535_999, e);
    }
  }

  /** With the products named, the rest is linear. */
  lemma Joined(a: nat, c: nat, fe: nat, fee: nat, le: nat, lee: nat, e: nat, ee: nat)
    requires e < YEAR && ee < 31_536_000 * 31_536_000
    requires 10 * le <= 8 * fe <= 10 * le + 10 * e && 10 * lee <= 8 * fee <= 10 * lee + 10 * ee
    requires a * 31_536_000 <= le < a * 31_536_000 + 31_536_000
    requires c * (31_536_000 * 31_536_000) <= fee - lee < (c + 2) * (31_536_000 * 31_536_000)
    ensures var y := 31_536_000;
      && (a + c) * (10 * y * y) < 8 * fe * y + 2 * fee + 10 * y * y
      && 8 * fe * y + 2 * fee < (a + c + 4) * (10 * y * y)
  {
  }

  /** The share of the pool that a withdrawal is of what circulates, in millionths. */
  function ShareDue(amount: nat, pool: nat, circulating: nat): nat
    requires circulating > 0
  {
    ProductNat(amount, pool);
    amount * pool * 1_000_000 / circulating
  }

  /** What a withdrawal of a part of what circulates yields: nothing for a day, and then its share of the pool by age. */
  lemma YieldIs(amount: nat, pool: nat, circulating: nat, elapsed: int)
    requires 0 < amount < circulating && 0 < pool && circulating + pool <= MAX_SHARES
    ensures elapsed <= 86_400 ==> Yield(amount, pool, circulating + pool, elapsed) == Some(0)
    ensures elapsed > 86_400 ==>
      && ShareDue(amount, pool, circulating) <= MAX_SCALED
      && Yield(amount, pool, circulating + pool, elapsed) == Some(Curve(ShareDue(amount, pool, circulating), elapsed) / 1_000_000)
  {
    if elapsed > 86_400 {
      ModWithin(circulating, WORD);
      FullBound(amount, pool, circulating);
      MulMono(pool, MAX_SHARES, SCALE);
      UnderThePool(amount, pool, circulating, elapsed);
      ModWithin(Unrounded(amount, pool, circulating, elapsed), HALF_WORD);
    }
  }
}
