/** The fee split applied to a direct donation. */
module FeeRouter {

  /** Fees are expressed per mille of the donated amount. */
  const FEE_DENOMINATOR: nat := 1000
  /** 2.5% to the staking wallet. */
  const STAKING_FEE: nat := 25
  /** 2.5% to the development wallet. */
  const DEVELOPMENT_FEE: nat := 25

  /** How a donation is divided between the staking, development and charity wallets. */
  datatype Split = Split(stakingFee: nat, developmentFee: nat, charityShare: nat)

  /**
   * Each fee is the rounded-down per-mille share; the charity receives the remainder, so
   * nothing is created or lost by rounding.
   */
  function SplitDonation(amount: nat): (s: Split)
    ensures s.stakingFee + s.developmentFee + s.charityShare == amount
    ensures s.stakingFee * FEE_DENOMINATOR <= amount * STAKING_FEE < (s.stakingFee + 1) * FEE_DENOMINATOR
    ensures s.developmentFee * FEE_DENOMINATOR <= amount * DEVELOPMENT_FEE < (s.developmentFee + 1) * FEE_DENOMINATOR
  {
    var staking := amount * STAKING_FEE / FEE_DENOMINATOR;
    var development := amount * DEVELOPMENT_FEE / FEE_DENOMINATOR;
    Split(staking, development, amount - staking - development)
  }

  /**
   * The charity share is 95% of the donation rounded down, plus at most two units of
   * rounding that the two fees gave up.
   */
  lemma CharityShareNearNinetyFivePercent(amount: nat)
    ensures amount * 95 / 100 <= SplitDonation(amount).charityShare <= amount * 95 / 100 + 2
  {
    var q, r := amount / 40, amount % 40;
    assert amount == 40 * q + r;
    assert SplitDonation(amount).stakingFee == q;
    assert SplitDonation(amount).charityShare == 38 * q + r;
    assert amount * 95 == (38 * q) * 100 + 95 * r;
    assert amount * 95 / 100 == 38 * q + (95 * r) / 100;
  }

  /** When the fees divide exactly (amount a multiple of 40), the charity gets exactly 95%. */
  lemma CharityShareExact(amount: nat)
    requires amount % 40 == 0
    ensures SplitDonation(amount).charityShare == amount * 95 / 100
    ensures SplitDonation(amount).stakingFee * 40 == amount
  {
    var q := amount / 40;
    assert amount == 40 * q;
    assert SplitDonation(amount).stakingFee == q;
    assert amount * 95 == (38 * q) * 100;
  }
}
