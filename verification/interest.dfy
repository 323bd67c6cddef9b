/**
 * The residual-interest state machine: interest is what the lending position reports beyond
 * the accounted principal; an accrual recognises only its increase, a redemption resets the
 * per-cycle counters.
 */
module Interest {
  import opened SafeMath

  /**
   * The price reading captured at the last accrual: the underlying's price, the number of
   * decimals that price carries, and the decimals of the underlying and of the holding token.
   */
  datatype PriceSnapshot = PriceSnapshot(price: nat, priceDecimals: nat, underlyingDecimals: nat, holdingDecimals: nat)

  /** Storage before the first accrual: every field zero. */
  const NO_SNAPSHOT: PriceSnapshot := PriceSnapshot(0, 0, 0, 0)

  function Max(a: nat, b: nat): nat { if a >= b then a else b }

  /**
   * Converts an amount of the underlying into USD at the captured price, scaled from the
   * underlying's decimals to the holding token's decimals; one rounding-down division.
   */
  function ToUSD(amount: nat, snap: PriceSnapshot): (usd: nat)
    ensures amount == 0 || snap.price == 0 ==> usd == 0
  {
    if snap.underlyingDecimals >= snap.holdingDecimals then
      amount * snap.price * Pow(10, snap.underlyingDecimals - snap.holdingDecimals) / Pow(10, snap.priceDecimals)
    else
      amount * snap.price / Pow(10, snap.priceDecimals + (snap.holdingDecimals - snap.underlyingDecimals))
  }

  /** A snapshot whose conversion is an exact whole-number rate (no rounding). */
  ghost predicate ExactRate(snap: PriceSnapshot)
  {
    snap.underlyingDecimals >= snap.holdingDecimals &&
    (snap.price * Pow(10, snap.underlyingDecimals - snap.holdingDecimals)) % Pow(10, snap.priceDecimals) == 0
  }

  ghost function Rate(snap: PriceSnapshot): nat
    requires ExactRate(snap)
  {
    snap.price * Pow(10, snap.underlyingDecimals - snap.holdingDecimals) / Pow(10, snap.priceDecimals)
  }

  /** At an exact rate, conversion is linear: every unit of the underlying is worth Rate(snap). */
  lemma ToUSDLinear(amount: nat, snap: PriceSnapshot)
    requires ExactRate(snap)
    ensures ToUSD(amount, snap) == amount * Rate(snap)
  {
    var p := Pow(10, snap.underlyingDecimals - snap.holdingDecimals);
    var d := Pow(10, snap.priceDecimals);
    ScaleExactly(amount, snap.price, p, d);
  }

  /** (a * b * c) / d == a * ((b * c) / d) when d divides b * c. */
  lemma ScaleExactly(a: nat, b: nat, c: nat, d: nat)
    requires d > 0 && (b * c) % d == 0
    ensures a * b * c / d == a * (b * c / d)
  {
    var k := b * c;
    var q := k / d;
    assert k == d * q + k % d;
    assert k == q * d;
    assert a * b * c == a * k;
    var m := a * q;
    assert a * k == m * d by {
      assert a * (q * d) == (a * q) * d;
    }
    DivCancel(m, d);
  }

  lemma DivCancel(m: nat, d: nat)
    requires d > 0
    ensures m * d / d == m
  {
    var r := m * d / d;
    var t := m * d % d;
    assert m * d == d * r + t && 0 <= t < d;
    if r < m {
      MulMonotone(r + 1, m, d);
      assert false;
    } else if r > m {
      MulMonotone(m + 1, r, d);
      assert false;
    }
  }

  lemma MulMonotone(a: nat, b: nat, d: nat)
    requires a <= b
    ensures d * a <= d * b
  {
  }

  /** The snapshot the tests run with: price 1e8 with 8 decimals, an 18-decimal underlying, a 9-decimal holding token. */
  const TEST_SNAPSHOT: PriceSnapshot := PriceSnapshot(100000000, 8, 18, 9)

  /** Under the test snapshot one unit of the underlying is worth 10^9 USD units. */
  lemma TestSnapshotRate(amount: nat)
    ensures ToUSD(amount, TEST_SNAPSHOT) == amount * 1000000000
  {
    assert Pow(10, 9) == 1000000000;
    assert Pow(10, 8) == 100000000;
    assert amount * 100000000 * 1000000000 == (amount * 1000000000) * 100000000;
  }

  /**
   * `interestEarned()`: the lending position's reported underlying balance minus the
   * accounted principal, floored at zero.
   */
  function InterestEarned(underlying: nat, accounted: nat): (r: nat)
    ensures r == 0 <==> underlying <= accounted
    ensures r > 0 ==> accounted + r == underlying
  {
    if underlying > accounted then underlying - accounted else 0
  }

  /** The pool's interest fields. */
  datatype InterestState = InterestState(
    currentInterestEarned: nat,
    redeemableInterest: nat,
    newTotalInterestEarnedUSD: nat,
    totalInterestEarnedUSD: nat,
    snapshot: PriceSnapshot)

  const INITIAL: InterestState := InterestState(0, 0, 0, 0, NO_SNAPSHOT)

  /** Every redeemable unit is recognised and not yet redeemed: the state the operations keep from INITIAL. */
  predicate InSync(s: InterestState)
  {
    s.redeemableInterest == s.currentInterestEarned
  }

  /**
   * `calculateTotalIncrementalInterest()` given the current interest `earned`: the snapshot is
   * always replaced; only an increase over `currentInterestEarned` is recognised, and exactly
   * that increase is added to the redeemable interest and, in USD, to the totals.
   */
  function Accrue(s: InterestState, earned: nat, snap: PriceSnapshot): (r: InterestState)
    ensures r.snapshot == snap
    ensures r.currentInterestEarned == Max(s.currentInterestEarned, earned)
    ensures r.redeemableInterest == s.redeemableInterest + (r.currentInterestEarned - s.currentInterestEarned)
    ensures earned <= s.currentInterestEarned ==> r == s.(snapshot := snap)
    ensures earned > s.currentInterestEarned ==>
              r.newTotalInterestEarnedUSD == ToUSD(r.currentInterestEarned - s.currentInterestEarned, snap) &&
              r.totalInterestEarnedUSD == s.totalInterestEarnedUSD + r.newTotalInterestEarnedUSD
  {
    if earned > s.currentInterestEarned then
      var gain := earned - s.currentInterestEarned;
      var usd := ToUSD(gain, snap);
      InterestState(earned, s.redeemableInterest + gain, usd, s.totalInterestEarnedUSD + usd, snap)
    else
      s.(snapshot := snap)
  }

  /**
   * `redeemInterest()`: with nothing redeemable nothing happens; otherwise both per-cycle
   * counters return to zero and the USD totals are kept.
   */
  function Redeem(s: InterestState): (r: InterestState)
    ensures r.redeemableInterest == 0
    ensures s.redeemableInterest == 0 ==> r == s
    ensures s.redeemableInterest > 0 ==> r.currentInterestEarned == 0
    ensures r.newTotalInterestEarnedUSD == s.newTotalInterestEarnedUSD
    ensures r.totalInterestEarnedUSD == s.totalInterestEarnedUSD
    ensures r.snapshot == s.snapshot
  {
    if s.redeemableInterest == 0 then s
    else s.(currentInterestEarned := 0, redeemableInterest := 0)
  }

  /** A second accrual with the same readings changes nothing. */
  lemma AccrueIdempotent(s: InterestState, earned: nat, snap: PriceSnapshot)
    ensures Accrue(Accrue(s, earned, snap), earned, snap) == Accrue(s, earned, snap)
  {
  }

  /** Accrual and redemption keep the redeemable interest equal to the recognised interest. */
  lemma InSyncPreserved(s: InterestState, earned: nat, snap: PriceSnapshot)
    requires InSync(s)
    ensures InSync(Accrue(s, earned, snap))
    ensures InSync(Redeem(s))
  {
  }

  /** Accruals over a sequence of interest readings, with no redemption in between. */
  function AccrueAll(s: InterestState, readings: seq<nat>, snap: PriceSnapshot): InterestState
    decreases |readings|
  {
    if readings == [] then s else AccrueAll(Accrue(s, readings[0], snap), readings[1..], snap)
  }

  /** The highest of a sequence of readings (zero for none). */
  function MaxOf(readings: seq<nat>): nat
    decreases |readings|
  {
    if readings == [] then 0 else Max(readings[0], MaxOf(readings[1..]))
  }

  /**
   * No double counting: after any run of accruals the recognised interest is the high-water
   * mark of the readings, and the redeemable interest grew by exactly what was recognised.
   */
  lemma {:induction false} AccrueAllHighWater(s: InterestState, readings: seq<nat>, snap: PriceSnapshot)
    ensures AccrueAll(s, readings, snap).currentInterestEarned == Max(s.currentInterestEarned, MaxOf(readings))
    ensures AccrueAll(s, readings, snap).redeemableInterest
            == s.redeemableInterest + (AccrueAll(s, readings, snap).currentInterestEarned - s.currentInterestEarned)
    decreases |readings|
  {
    if readings != [] {
      AccrueAllHighWater(Accrue(s, readings[0], snap), readings[1..], snap);
    }
  }

  /**
   * No double counting in USD: at an exact rate, the lifetime USD total grows by exactly the
   * USD value of the interest recognised, however many accruals it took.
   */
  lemma {:induction false} AccrueAllUSD(s: InterestState, readings: seq<nat>, snap: PriceSnapshot)
    requires ExactRate(snap)
    ensures AccrueAll(s, readings, snap).totalInterestEarnedUSD
            == s.totalInterestEarnedUSD + (AccrueAll(s, readings, snap).currentInterestEarned - s.currentInterestEarned) * Rate(snap)
    decreases |readings|
  {
    if readings != [] {
      var s1 := Accrue(s, readings[0], snap);
      AccrueAllUSD(s1, readings[1..], snap);
      AccrueAllHighWater(s1, readings[1..], snap);
      var d := s1.currentInterestEarned - s.currentInterestEarned;
      var e := AccrueAll(s1, readings[1..], snap).currentInterestEarned - s1.currentInterestEarned;
      ToUSDLinear(d, snap);
      assert s1.totalInterestEarnedUSD == s.totalInterestEarnedUSD + d * Rate(snap);
      assert (d + e) * Rate(snap) == d * Rate(snap) + e * Rate(snap);
    }
  }

  /**
   * One full cycle: accrue, redeem (the lending position pays out the redeemable interest),
   * let `growth` accrue, accrue again. The second accrual recognises exactly `growth`.
   */
  lemma RedeemCycleRecognisesOnlyGrowth(s: InterestState, underlying: nat, accounted: nat, growth: nat, snap: PriceSnapshot)
    requires InSync(s)
    requires accounted <= underlying
    requires s.currentInterestEarned <= underlying - accounted
    ensures var s1 := Accrue(s, InterestEarned(underlying, accounted), snap);
            var s2 := Redeem(s1);
            var s3 := Accrue(s2, InterestEarned(underlying - s1.redeemableInterest + growth, accounted), snap);
            s1.redeemableInterest == underlying - accounted &&
            s3.redeemableInterest == growth && s3.currentInterestEarned == growth
  {
  }
}
