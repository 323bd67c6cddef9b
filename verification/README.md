# CharityPool accounting ledger, in Dafny

This project models the accounting core of iHelp's `CharityPool`, as its Hardhat suite
`test/03_charity.test.js` pins it down call by call. Depositors place the underlying token in
the pool. The pool records each depositor's principal (`balanceOf`), the accounted total
(`accountedBalance`) and the list of contributors. Interest is never counted on its own: it is
the lending position's reported underlying balance minus the accounted principal, floored at
zero. An accrual by the iHelp token recognises only the increase of that residual over
`currentInterestEarned`. It makes that increase redeemable and adds its USD value to the totals.
A redemption pays out the redeemable interest and resets the per-cycle counters. Direct
donations are split 2.5% staking, 2.5% development and the rest to the charity. `safepow` is
uint256 exponentiation with `0^0 = 1`.

Modules:

- `Outcomes` (outcomes.dfy) holds the revert reasons (`Funding/small-amount`, `Funding/no-funds`, overflow, unauthorised caller) and the result types.
- `SafeMath` (safemath.dfy) holds `Pow`, the mathematical reference, and `SafePow`. `SafePow` multiplies in a loop, checking for uint256 overflow at each step.
- `FeeRouter` (fees.dfy) holds the fee constants and the donation split.
- `Interest` (interest.dfy) holds the residual interest, the USD conversion at a captured price snapshot, and the accrual and redemption transitions as pure functions over the interest fields. It also holds the lemmas about them.
- `Ledger` (ledger.dfy) holds the `CharityPool` class. Its fields are the ones the suite reads back. Its invariant `Valid()` says two things:
  - `accountedBalance` is the sum of all balances;
  - the contributors are exactly the addresses with a positive balance, each listed once.

  Every ledger operation keeps `Valid()`. The accrual and redemption methods are tied to the `Interest` functions.
- `CharityTests` (tests.dfy) replays the suite's groups of cases on fresh pools. Each method's postcondition is the set of values those cases expect. Where the suite overwrites storage (`setVariable`), the method assigns the pool's fields directly.

The lending position's reported balance and the price reading are plain arguments of the accrual. The price reading is a `PriceSnapshot`: the price, its decimals, and the decimals of the underlying and holding tokens. The suite's reading is `TEST_SNAPSHOT`: price 1e8 with 8 decimals, an 18-decimal underlying and a 9-decimal holding token. At that reading one unit is worth 10^9 USD units, as the suite expects.

Three behaviours follow the suite where it is more specific than the names of the operations suggest:

- An accrual that recognises no new interest still captures the price snapshot. In test/03_charity.test.js:154-162 the position reports exactly the 100 deposited, so the residual interest is 0. Even so, `balanceOfUSD` goes from 0 to 100 * 10^9 across that accrual. Only the recognition of interest is conditional.
- Before any accrual the snapshot is all zero, so both USD views read 0.
- The "emit deposit event" case in the Sponsor group (lines 175-177) calls `deposit`, not `sponsor`. The suite therefore does not pin which event `sponsor` emits. The model gives `sponsor` the deposit's effect, including `Deposited`.

## Model

| member | source | states |
|---|---|---|
| `Ledger.CharityPool.constructor` | test/03_charity.test.js:32-45 | an initialised pool has an empty ledger, zero interest fields, no snapshot, and satisfies the ledger invariant |
| `Ledger.CharityPool.Deposit` | test/03_charity.test.js:125-147 | `deposit(0)` reverts with small-amount and changes nothing; otherwise the sender's balance and `accountedBalance` rise by the amount, the sender is listed once among the contributors, Deposited is emitted, the interest fields are untouched and the sum invariant holds |
| `Ledger.CharityPool.Sponsor` | test/03_charity.test.js:171-193 | `sponsor` rejects zero and otherwise has exactly the deposit's ledger effect |
| `Ledger.CharityPool.WithdrawAmount` | test/03_charity.test.js:213-221 | a withdrawal of more than the balance (or of zero) reverts with no-funds and leaves the balance as it was; otherwise the balance and `accountedBalance` fall by the amount, a depositor left with nothing leaves the contributors, Withdrawn is emitted, and the sum invariant holds |
| `Ledger.CharityPool.Withdraw` | test/03_charity.test.js:208-232 | `withdraw()` leaves the sender's balance at 0 and takes exactly that balance off `accountedBalance`, leaves every other balance alone, and emits Withdrawn when there was something to withdraw |
| `Ledger.CharityPool.CalculateTotalIncrementalInterest` | test/03_charity.test.js:311-361 | only the iHelp token may accrue; the interest fields become `Accrue` of the residual interest at the given reading, and the ledger is untouched, so the ledger invariant is kept |
| `Ledger.CharityPool.RedeemInterest` | test/03_charity.test.js:363-408 | only the iHelp token may redeem; it returns the redeemable interest, applies `Redeem` to the interest fields, and emits Rewarded with that amount exactly when it is nonzero; the ledger is untouched and its invariant kept |
| `Ledger.CharityPool.DirectDonation` | test/03_charity.test.js:241-277 | a zero donation routes nothing and emits nothing; one whose 2.5% fee multiplication leaves uint256 reverts with Overflow and emits nothing; any other is split by `SplitDonation`, swaps the staking fee exactly when the holding token is not the underlying, and emits Rewarded; the ledger invariant is kept |
| `Ledger.CharityPool.BalanceOfUSD` | test/03_charity.test.js:154-162 | a depositor's balance valued at the snapshot captured by the last accrual; zero for a zero balance |
| `Ledger.CharityPool.AccountedBalanceUSD` | test/03_charity.test.js:351-361 | the accounted balance valued at the snapshot captured by the last accrual; zero when nothing is accounted |
| `Ledger.Remove` | test/03_charity.test.js:208-211 | the contributor list without one address keeps exactly the other members and stays free of duplicates |
| `Ledger.SumAppend` | test/03_charity.test.js:144-147 | listing a new contributor adds exactly that contributor's balance to the summed principal |
| `Ledger.SumUpdatePresent` | test/03_charity.test.js:144-147 | changing one listed depositor's balance moves the summed principal by exactly the change, which is what keeps `accountedBalance` equal to the sum |
| `Ledger.SumUpdateAbsent` | test/03_charity.test.js:144-147 | changing the balance of an unlisted address does not move the summed principal |
| `Ledger.SumRemoveZero` | test/03_charity.test.js:223-227 | dropping a depositor whose balance is zero from the contributors does not move the summed principal |
| `Interest.InterestEarned` | test/03_charity.test.js:286-309 | interest is zero exactly when the reported balance does not exceed the accounted balance, and otherwise is the exact excess |
| `Interest.Accrue` | test/03_charity.test.js:311-349 | the snapshot is always replaced; recognised interest becomes the larger of the old and the new residual; redeemable interest grows by exactly what is newly recognised; the USD delta is that increase valued at the reading and is added to the lifetime total; with no increase nothing else changes |
| `Interest.Redeem` | test/03_charity.test.js:363-408 | afterwards nothing is redeemable; with something redeemable the recognised interest is reset to zero too; with nothing redeemable the state is unchanged; the USD totals and the snapshot are kept |
| `Interest.AccrueIdempotent` | test/03_charity.test.js:319-327 | a second accrual with the same reading changes nothing |
| `Interest.InSyncPreserved` | test/03_charity.test.js:363-380 | accrual and redemption keep redeemable interest equal to recognised interest |
| `Interest.AccrueAllHighWater` | test/03_charity.test.js:319-327 | after any run of accruals the recognised interest is the high-water mark of the readings and the redeemable interest grew by exactly what was recognised: nothing is counted twice |
| `Interest.AccrueAllUSD` | test/03_charity.test.js:329-349 | at an exact price rate the lifetime USD total grows by exactly the USD value of the interest recognised, however many accruals it took |
| `Interest.RedeemCycleRecognisesOnlyGrowth` | test/03_charity.test.js:363-408 | accrue, redeem (the position pays out the redeemable interest), accrue again: the second accrual recognises exactly the interest earned since, and nothing already redeemed |
| `Interest.ToUSD` | test/03_charity.test.js:329-338 | a zero amount or an unset (zero) price is worth zero USD |
| `Interest.ToUSDLinear` | test/03_charity.test.js:329-338 | when the price and decimal scaling give a whole-number rate, conversion is multiplication by that rate |
| `Interest.TestSnapshotRate` | test/03_charity.test.js:154-162 | at the suite's reading (price 1e8, 8 price decimals, 18-decimal underlying, 9-decimal holding token) every amount is worth amount * 10^9 |
| `FeeRouter.SplitDonation` | test/03_charity.test.js:251-270 | staking and development fees are each the rounded-down 2.5% of the donation, and the three shares add up to the donation exactly |
| `FeeRouter.CharityShareNearNinetyFivePercent` | test/03_charity.test.js:272-277 | the charity share is 95% of the donation rounded down, plus at most 2 units of rounding the fees gave up |
| `FeeRouter.CharityShareExact` | test/03_charity.test.js:272-277 | for a donation that is a multiple of 40 (10 ether is) the charity share is exactly 95% |
| `SafeMath.Pow` | test/03_charity.test.js:411-421 | a positive base gives a positive power; zero to a positive exponent is zero |
| `SafeMath.PowMonotone` | test/03_charity.test.js:411-421 | for a base of at least one, a larger exponent never gives a smaller power |
| `SafeMath.PowAdd` | test/03_charity.test.js:420 | powers add their exponents |
| `SafeMath.SafePow` | test/03_charity.test.js:411-421 | on uint256 arguments the result is the mathematical power (so `0^0 = 1` and `0^n = 0`) exactly when that fits in uint256, and an Overflow revert otherwise |
| `CharityTests.SafePowTable` | test/03_charity.test.js:411-421 | the eight calls of the suite return 1, 0, 1, 1, 0, 8, 1 and 10^18 |
| `CharityTests.DepositCases` | test/03_charity.test.js:125-147 | `deposit(0)` reverts with small-amount; after `deposit(15)` the contributors are the owner alone, the balance and `accountedBalance` are 15, and Deposited was emitted |
| `CharityTests.SponsorCases` | test/03_charity.test.js:171-193 | `sponsor(0)` reverts with small-amount; after `sponsor(15)` the contributors are the owner alone and balance and `accountedBalance` are 15 |
| `CharityTests.BalanceOfUSDCase` | test/03_charity.test.js:154-162 | `balanceOfUSD` is 0 after depositing 100 and 100 * 10^9 after an accrual |
| `CharityTests.WithdrawAllCase` | test/03_charity.test.js:208-211 | from a deposit of 100, `withdraw()` leaves the balance at 0 and emits Withdrawn |
| `CharityTests.WithdrawPartialCase` | test/03_charity.test.js:213-216 | from a deposit of 100, `withdrawAmount(10)` leaves 90 |
| `CharityTests.WithdrawOverBalanceCase` | test/03_charity.test.js:218-221 | from a deposit of 100, `withdrawAmount(101)` reverts with no-funds and the balance stays 100 |
| `CharityTests.DirectDonationCases` | test/03_charity.test.js:241-277 | donating 0 routes and emits nothing; donating 10 ether pays 10e18*25/1000 to staking (no swap when the holding token is the underlying, a swap otherwise) and to development, 10e18*95/100 to the charity, and emits Rewarded |
| `CharityTests.InterestEarnedCases` | test/03_charity.test.js:286-309 | interest is 10000 with nothing deposited; after depositing 200 ether and withdrawing 150, `accountedBalance` is 50 ether and interest is 10000; with a position reporting 0 it is 0 |
| `CharityTests.AccrualCases` | test/03_charity.test.js:311-349 | one accrual at 10000 makes 10000 redeemable and a second leaves it at 10000; both USD figures are 10000 * 10^9 and `accountedBalanceUSD` is 0; with `currentInterestEarned` already 10000 both USD figures stay 0 |
| `CharityTests.AccountedBalanceUSDCase` | test/03_charity.test.js:351-361 | after depositing 200 ether and an accrual, `accountedBalanceUSD` is 200 ether * 10^9 |
| `CharityTests.RedeemPokedCase` | test/03_charity.test.js:363-380 | with 10000 redeemable and recognised and the position reporting nothing, redeeming emits Rewarded and zeroes both counters |
| `CharityTests.RedeemAccruedCase` | test/03_charity.test.js:382-408 | after an accrual of 10000, 10000 is redeemable; redeeming emits Rewarded and leaves 0 redeemable |
| `CharityTests.RedeemNothingCase` | test/03_charity.test.js:391-397 | with nothing accrued, redeeming emits no Rewarded |

## Left out

- Token custody is not modelled: ERC-20 minting, allowances and transfers in and out of the pool (lines 121-122, 237-238). Only their effect on the ledger is.
- The cToken is not modelled: `mint`, `redeemUnderlying` and `balance()` (lines 112-115, 149-152, 195-198, 226). The lending position's reported underlying balance is an argument of each accrual. A redemption's payout shows up only in the next reading the caller passes.
- The Chainlink aggregator and `getUnderlyingTokenPrice` (lines 22, 48-49) are foreign reads. The price is a `PriceSnapshot` argument captured at accrual.
- The swapper (lines 30, 259-263) is a foreign call. A donation only records whether the staking fee is swapped.
- Owner/operator access control, `transferOperator` and `setStakingPool` (lines 81-106) are configuration wiring and are not modelled. Only the iHelp-token restriction on accrual and redemption is.
- `supplyRatePerBlock`, `estimatedInterestRate` and `decimals()` (lines 69-79) pass a mocked rate or constant straight through and are not modelled.
- The deployment getters for the staking, holding and development pools and the token (lines 53-67) are not modelled.
- The Solidity source of `CharityPool` is not part of this model, so the exact USD expression is not known. `Interest.ToUSD` scales by the price, by 10^(underlying decimals - holding decimals) and by 10^-(price decimals), with one rounding-down division. It agrees with every value the suite checks.
- Interest.ToUSD: agrees with the pool only on the readings the suite uses; its rounding for other prices and decimals is an assumption.
- Ledger.CharityPool.Deposit: balances and totals are unbounded naturals, so the uint256 overflow revert of a deposit that would pass 2^256 - 1 is not modelled. The same holds for the USD totals of an accrual. uint256 overflow is modelled in `SafeMath.SafePow` and in the fee multiplication of `Ledger.CharityPool.DirectDonation`.
- Ledger.CharityPool.WithdrawAmount: the suite pins only the over-balance revert. The model also rejects `withdrawAmount(0)` and `withdraw()` on a zero balance with no-funds. It removes a depositor from the contributors when their balance reaches zero (`Ledger.Remove`), which the suite reaches (lines 208-211, 223-227) but does not assert.
- Ledger.CharityPool.RedeemInterest: the Rewarded amount is modelled as the redeemable interest. The tokens actually received from the lending position are not modelled, and neither is their onward routing to the charity and fee wallets.
- FeeRouter.SplitDonation: the charity share is the remainder after the two fees. It equals the suite's `amount * 95 / 100` exactly when the amount is a multiple of 40, and is up to 2 units larger otherwise.
- Reentrancy guards, gas, and the events' indexing are not modelled.
- A lending position that reports less than the accounted principal shows up only as zero interest. No separate shortfall condition is modelled.
