/**
 * The Hardhat suite's scenarios replayed against the model: each method runs the calls of a
 * group of test cases on a fresh pool and its postcondition states the values they expect.
 * Storage poking in the suite appears here as direct assignments to the pool's fields.
 */
module CharityTests {
  import opened Outcomes
  import opened SafeMath
  import opened Interest
  import opened Ledger
  import FeeRouter

  const OWNER: Address := 1
  const HELP_TOKEN: Address := 2
  const UNDERLYING: Address := 3
  const HOLDING: Address := 4

  /** 10^18, the unit `parseEther` scales by. */
  const ETHER: nat := 1000000000000000000

  method NewPool() returns (pool: CharityPool)
    ensures fresh(pool) && pool.Valid()
    ensures pool.helpToken == HELP_TOKEN && pool.token == UNDERLYING && pool.holdingToken == HOLDING
    ensures pool.balances == map[] && pool.accountedBalance == 0 && pool.contributors == []
    ensures pool.InterestFields() == INITIAL && pool.events == []
  {
    pool := new CharityPool(HELP_TOKEN, UNDERLYING, HOLDING);
  }

  /** "Deposit": zero is rejected; 15 is credited, listed, totalled and announced. */
  method DepositCases() returns (zero: Outcome, contributors: seq<Address>, balance: nat, accounted: nat, emitted: seq<Event>)
    ensures zero == Fail(SmallAmount)
    ensures contributors == [OWNER] && balance == 15 && accounted == 15
    ensures emitted == [Deposited(OWNER, 15)]
  {
    var pool := NewPool();
    zero := pool.Deposit(OWNER, 0);
    var ok := pool.Deposit(OWNER, 15);
    contributors, balance, accounted, emitted := pool.contributors, pool.BalanceOf(OWNER), pool.accountedBalance, pool.events;
  }

  /** "Sponsor": the same expectations as deposit. */
  method SponsorCases() returns (zero: Outcome, contributors: seq<Address>, balance: nat, accounted: nat)
    ensures zero == Fail(SmallAmount)
    ensures contributors == [OWNER] && balance == 15 && accounted == 15
  {
    var pool := NewPool();
    zero := pool.Sponsor(OWNER, 0);
    var ok := pool.Sponsor(OWNER, 15);
    contributors, balance, accounted := pool.contributors, pool.BalanceOf(OWNER), pool.accountedBalance;
  }

  /**
   * "Should calculate usd balance": after depositing 100 the USD balance is 0 until an accrual
   * captures the price, then 100 * 10^9 (the lending position reports the 100 deposited).
   */
  method BalanceOfUSDCase() returns (before: nat, after: nat)
    ensures before == 0 && after == 100 * 1000000000
  {
    var pool := NewPool();
    var ok := pool.Deposit(OWNER, 100);
    before := pool.BalanceOfUSD(OWNER);
    ok := pool.CalculateTotalIncrementalInterest(HELP_TOKEN, 100, TEST_SNAPSHOT);
    after := pool.BalanceOfUSD(OWNER);
    TestSnapshotRate(100);
  }

  /** "Should withdraw all balance" / "Should emit withdrawn event": from 100, withdraw() leaves 0. */
  method WithdrawAllCase() returns (balance: nat, emitted: seq<Event>)
    ensures balance == 0
    ensures emitted == [Deposited(OWNER, 100), Withdrawn(OWNER, 100)]
  {
    var pool := NewPool();
    var ok := pool.Deposit(OWNER, 100);
    ok := pool.Withdraw(OWNER);
    balance, emitted := pool.BalanceOf(OWNER), pool.events;
  }

  /** "Should withdraw partial balance": from 100, withdrawAmount(10) leaves 90. */
  method WithdrawPartialCase() returns (balance: nat, accounted: nat)
    ensures balance == 90 && accounted == 90
  {
    var pool := NewPool();
    var ok := pool.Deposit(OWNER, 100);
    ok := pool.WithdrawAmount(OWNER, 10);
    balance, accounted := pool.BalanceOf(OWNER), pool.accountedBalance;
  }

  /** "Should fail to withdraw over balance": from 100, withdrawAmount(101) reverts and 100 remains. */
  method WithdrawOverBalanceCase() returns (over: Outcome, balance: nat)
    ensures over == Fail(NoFunds) && balance == 100
  {
    var pool := NewPool();
    var ok := pool.Deposit(OWNER, 100);
    over := pool.WithdrawAmount(OWNER, 101);
    balance := pool.BalanceOf(OWNER);
  }

  /**
   * "Direct Donations": zero routes nothing and emits nothing; 10 ether pays 2.5% to staking
   * (directly when the holding token is the underlying, through one swap otherwise), 2.5% to
   * development and 95% to the charity, and emits Rewarded.
   */
  method DirectDonationCases() returns (zero: Result<Option<Routing>>, zeroEvents: seq<Event>, direct: Result<Option<Routing>>, swapped: Result<Option<Routing>>, emitted: seq<Event>)
    ensures zero == Ok(None) && zeroEvents == []
    ensures direct.Ok? && direct.value.Some? && !direct.value.value.swapStakingFee
    ensures direct.value.value.split.stakingFee == 10 * ETHER * 25 / 1000
    ensures direct.value.value.split.developmentFee == 10 * ETHER * 25 / 1000
    ensures direct.value.value.split.charityShare == 10 * ETHER * 95 / 100
    ensures swapped.Ok? && swapped.value.Some? && swapped.value.value.swapStakingFee
    ensures emitted == [Rewarded(10 * ETHER)]
  {
    var pool := NewPool();
    zero := pool.DirectDonation(0);
    zeroEvents := pool.events;

    pool := NewPool();
    pool.holdingToken := UNDERLYING;
    direct := pool.DirectDonation(10 * ETHER);
    FeeRouter.CharityShareExact(10 * ETHER);

    pool := NewPool();
    swapped := pool.DirectDonation(10 * ETHER);
    emitted := pool.events;
  }

  /**
   * "Should return interest ...": 10000 with nothing deposited; 10000 after depositing 200
   * ether and withdrawing 150 when the position reports 50 ether + 10000; 0 when it reports
   * nothing after depositing 200 and withdrawing 50.
   */
  method InterestEarnedCases() returns (empty: nat, accounted: nat, earned: nat, none: nat)
    ensures empty == 10000
    ensures accounted == 50 * ETHER && earned == 10000
    ensures none == 0
  {
    empty := InterestEarned(10000, 0);

    var pool := NewPool();
    var ok := pool.Deposit(OWNER, 200 * ETHER);
    ok := pool.WithdrawAmount(OWNER, 150 * ETHER);
    accounted := pool.accountedBalance;
    earned := InterestEarned(200 * ETHER - 150 * ETHER + 10000, pool.accountedBalance);

    pool := NewPool();
    ok := pool.Deposit(OWNER, 200);
    ok := pool.WithdrawAmount(OWNER, 50);
    none := InterestEarned(0, pool.accountedBalance);
  }

  /**
   * Accrual with the position reporting 10000 and nothing deposited: 10000 becomes
   * redeemable, and stays 10000 after a second accrual; both USD figures are 10000 * 10^9 and
   * the accounted balance is worth 0. With currentInterestEarned already 10000, nothing new is
   * recognised and both USD figures stay 0.
   */
  method AccrualCases() returns (first: nat, second: nat, newUSD: nat, totalUSD: nat, accountedUSD: nat, pokedNewUSD: nat, pokedTotalUSD: nat)
    ensures first == 10000 && second == 10000
    ensures newUSD == 10000 * 1000000000 && totalUSD == 10000 * 1000000000 && accountedUSD == 0
    ensures pokedNewUSD == 0 && pokedTotalUSD == 0
  {
    var pool := NewPool();
    var ok := pool.CalculateTotalIncrementalInterest(HELP_TOKEN, 10000, TEST_SNAPSHOT);
    first := pool.redeemableInterest;
    newUSD, totalUSD, accountedUSD := pool.newTotalInterestEarnedUSD, pool.totalInterestEarnedUSD, pool.AccountedBalanceUSD();
    TestSnapshotRate(10000);
    ok := pool.CalculateTotalIncrementalInterest(HELP_TOKEN, 10000, TEST_SNAPSHOT);
    second := pool.redeemableInterest;

    pool := NewPool();
    pool.currentInterestEarned := 10000;
    ok := pool.CalculateTotalIncrementalInterest(HELP_TOKEN, 10000, TEST_SNAPSHOT);
    pokedNewUSD, pokedTotalUSD := pool.newTotalInterestEarnedUSD, pool.totalInterestEarnedUSD;
  }

  /** "Should calculate accountedBalanceUSD": 200 ether deposited is worth 200 ether * 10^9 after an accrual. */
  method AccountedBalanceUSDCase() returns (usd: nat)
    ensures usd == 200 * ETHER * 1000000000
  {
    var pool := NewPool();
    var ok := pool.Deposit(OWNER, 200 * ETHER);
    ok := pool.CalculateTotalIncrementalInterest(HELP_TOKEN, 200 * ETHER + 10000, TEST_SNAPSHOT);
    usd := pool.AccountedBalanceUSD();
    TestSnapshotRate(200 * ETHER);
  }

  /**
   * "Should redeem interest": with 10000 redeemable and recognised (set directly) and the
   * position reporting nothing, redeeming emits Rewarded and zeroes both counters.
   */
  method RedeemPokedCase() returns (emitted: seq<Event>, redeemable: nat, current: nat)
    ensures emitted == [Rewarded(10000)] && redeemable == 0 && current == 0
  {
    var pool := NewPool();
    pool.redeemableInterest := 10000;
    pool.currentInterestEarned := 10000;
    var ok := pool.CalculateTotalIncrementalInterest(HELP_TOKEN, 0, TEST_SNAPSHOT);
    var redeemed := pool.RedeemInterest(HELP_TOKEN);
    emitted, redeemable, current := pool.events, pool.redeemableInterest, pool.currentInterestEarned;
  }

  /**
   * "Should emit rewarded" / "Should reset redeemable interest": after an accrual of 10000,
   * 10000 is redeemable; redeeming emits Rewarded and leaves nothing redeemable.
   */
  method RedeemAccruedCase() returns (before: nat, emitted: seq<Event>, after: nat)
    ensures before == 10000 && emitted == [Rewarded(10000)] && after == 0
  {
    var pool := NewPool();
    var ok := pool.CalculateTotalIncrementalInterest(HELP_TOKEN, 10000, TEST_SNAPSHOT);
    before := pool.redeemableInterest;
    var redeemed := pool.RedeemInterest(HELP_TOKEN);
    emitted, after := pool.events, pool.redeemableInterest;
  }

  /** "Should not emit rewarded if no interest": with nothing accrued, redeeming emits nothing. */
  method RedeemNothingCase() returns (emitted: seq<Event>)
    ensures emitted == []
  {
    var pool := NewPool();
    var ok := pool.CalculateTotalIncrementalInterest(HELP_TOKEN, 0, TEST_SNAPSHOT);
    var redeemed := pool.RedeemInterest(HELP_TOKEN);
    emitted := pool.events;
  }

  /** "Pow": the exponent table, including 0^0 = 1. */
  method SafePowTable() returns (results: seq<Result<nat>>)
    ensures results == [Ok(1), Ok(0), Ok(1), Ok(1), Ok(0), Ok(8), Ok(1), Ok(ETHER)]
  {
    var r0 := SafePow(0, 0);
    var r1 := SafePow(0, 1);
    var r2 := SafePow(1, 0);
    var r3 := SafePow(1, 1);
    var r4 := SafePow(0, 123);
    var r5 := SafePow(2, 3);
    var r6 := SafePow(0 * ETHER, 0 * ETHER);
    assert Pow(10, 9) == 1000000000;
    PowAdd(10, 9, 9);
    var r7 := SafePow(10, 18);
    results := [r0, r1, r2, r3, r4, r5, r6, r7];
  }
}
