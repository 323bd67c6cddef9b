/**
 * The depositor ledger of a CharityPool: per-address principal, the accounted total, the
 * contributor list, and the interest fields driven by the residual-interest state machine.
 */
module Ledger {
  import opened Outcomes
  import opened Interest
  import opened SafeMath
  import FeeRouter

  /** An account address. */
  type Address = nat

  /** Events the pool emits. */
  datatype Event =
    | Deposited(depositor: Address, amount: nat)
    | Withdrawn(depositor: Address, amount: nat)
    | Rewarded(amount: nat)

  /** How a direct donation was routed: the split, and whether the staking fee goes through the swapper. */
  datatype Routing = Routing(split: FeeRouter.Split, swapStakingFee: bool)

  /** A Solidity mapping read: absent keys hold zero. */
  function Get(balances: map<Address, nat>, a: Address): nat
  {
    if a in balances then balances[a] else 0
  }

  /** The total balance of the listed addresses. */
  function Sum(keys: seq<Address>, balances: map<Address, nat>): nat
    decreases |keys|
  {
    if keys == [] then 0 else Get(balances, keys[0]) + Sum(keys[1..], balances)
  }

  predicate NoDuplicates(keys: seq<Address>)
  {
    forall i, j :: 0 <= i < j < |keys| ==> keys[i] != keys[j]
  }

  /** `keys` without `a`, the others in their order. */
  function Remove(keys: seq<Address>, a: Address): (r: seq<Address>)
    ensures forall x :: x in r <==> x in keys && x != a
    ensures NoDuplicates(keys) ==> NoDuplicates(r)
    decreases |keys|
  {
    if keys == [] then []
    else if keys[0] == a then Remove(keys[1..], a)
    else
      var rest := Remove(keys[1..], a);
      assert NoDuplicates(keys) ==> keys[0] !in keys[1..] && NoDuplicates(keys[1..]) by {
        if NoDuplicates(keys) {
          forall i | 0 <= i < |keys| - 1 ensures keys[1..][i] != keys[0] {
            assert keys[1..][i] == keys[i + 1];
          }
        }
      }
      [keys[0]] + rest
  }

  /** Appending an address adds its balance. */
  lemma {:induction false} SumAppend(keys: seq<Address>, a: Address, balances: map<Address, nat>)
    ensures Sum(keys + [a], balances) == Sum(keys, balances) + Get(balances, a)
    decreases |keys|
  {
    if keys != [] {
      assert (keys + [a])[1..] == keys[1..] + [a];
      SumAppend(keys[1..], a, balances);
    }
  }

  /** Changing the balance of an unlisted address leaves the total alone. */
  lemma {:induction false} SumUpdateAbsent(keys: seq<Address>, balances: map<Address, nat>, a: Address, v: nat)
    requires a !in keys
    ensures Sum(keys, balances[a := v]) == Sum(keys, balances)
    decreases |keys|
  {
    if keys != [] {
      assert keys[0] != a;
      SumUpdateAbsent(keys[1..], balances, a, v);
    }
  }

  /** Changing the balance of a listed address (listed once) moves the total by the difference. */
  lemma {:induction false} SumUpdatePresent(keys: seq<Address>, balances: map<Address, nat>, a: Address, v: nat)
    requires NoDuplicates(keys) && a in keys
    ensures Sum(keys, balances[a := v]) + Get(balances, a) == Sum(keys, balances) + v
    decreases |keys|
  {
    assert NoDuplicates(keys[1..]) by {
      forall i, j | 0 <= i < j < |keys| - 1 ensures keys[1..][i] != keys[1..][j] {
        assert keys[1..][i] == keys[i + 1] && keys[1..][j] == keys[j + 1];
      }
    }
    if keys[0] == a {
      assert a !in keys[1..] by {
        forall i | 0 <= i < |keys| - 1 ensures keys[1..][i] != a {
          assert keys[1..][i] == keys[i + 1];
        }
      }
      SumUpdateAbsent(keys[1..], balances, a, v);
    } else {
      SumUpdatePresent(keys[1..], balances, a, v);
    }
  }

  /** Dropping an address whose balance is zero leaves the total alone. */
  lemma {:induction false} SumRemoveZero(keys: seq<Address>, balances: map<Address, nat>, a: Address)
    requires Get(balances, a) == 0
    ensures Sum(Remove(keys, a), balances) == Sum(keys, balances)
    decreases |keys|
  {
    if keys != [] {
      SumRemoveZero(keys[1..], balances, a);
    }
  }

  class CharityPool {
    /** The iHelp token: the only caller allowed to accrue and redeem interest. */
    const helpToken: Address
    /** The underlying token deposits are made in. */
    const token: Address
    /** The token the staking fee is paid in; a swap is needed when it is not the underlying. */
    var holdingToken: Address

    var balances: map<Address, nat>
    var accountedBalance: nat
    var contributors: seq<Address>

    var currentInterestEarned: nat
    var redeemableInterest: nat
    var newTotalInterestEarnedUSD: nat
    var totalInterestEarnedUSD: nat
    var snapshot: PriceSnapshot

    var events: seq<Event>

    /**
     * The ledger invariant: the accounted balance is the sum of every depositor's balance, and
     * the contributors are exactly the depositors with a positive balance, each listed once.
     */
    ghost predicate Valid()
      reads this
    {
      NoDuplicates(contributors) &&
      (forall a :: a in contributors <==> Get(balances, a) > 0) &&
      accountedBalance == Sum(contributors, balances)
    }

    /** `balanceOf(a)`. */
    function BalanceOf(a: Address): nat
      reads this
    {
      Get(balances, a)
    }

    /** The interest fields as one value. */
    function InterestFields(): InterestState
      reads this
    {
      InterestState(currentInterestEarned, redeemableInterest, newTotalInterestEarnedUSD, totalInterestEarnedUSD, snapshot)
    }

    /** `balanceOfUSD(a)`: the balance at the price captured by the last accrual. */
    function BalanceOfUSD(a: Address): (usd: nat)
      reads this
      ensures BalanceOf(a) == 0 ==> usd == 0
    {
      ToUSD(BalanceOf(a), snapshot)
    }

    /** `accountedBalanceUSD()`: the accounted balance at the price captured by the last accrual. */
    function AccountedBalanceUSD(): (usd: nat)
      reads this
      ensures accountedBalance == 0 ==> usd == 0
    {
      ToUSD(accountedBalance, snapshot)
    }

    /** `initialize(...)`: an empty ledger with all interest fields zero. */
    constructor (helpToken: Address, token: Address, holdingToken: Address)
      ensures Valid()
      ensures this.helpToken == helpToken && this.token == token && this.holdingToken == holdingToken
      ensures balances == map[] && accountedBalance == 0 && contributors == []
      ensures InterestFields() == INITIAL
      ensures events == []
    {
      this.helpToken := helpToken;
      this.token := token;
      this.holdingToken := holdingToken;
      balances := map[];
      accountedBalance := 0;
      contributors := [];
      currentInterestEarned := 0;
      redeemableInterest := 0;
      newTotalInterestEarnedUSD := 0;
      totalInterestEarnedUSD := 0;
      snapshot := NO_SNAPSHOT;
      events := [];
    }

    /**
     * `deposit(amount)` by `sender`: zero is rejected with SmallAmount and nothing changes;
     * otherwise the sender's balance and the accounted balance rise by `amount`, the sender is
     * a contributor, and Deposited is emitted.
     */
    method Deposit(sender: Address, amount: nat) returns (r: Outcome)
      requires Valid()
      modifies this
      ensures Valid()
      ensures r == (if amount == 0 then Fail(SmallAmount) else Pass)
      ensures r.Fail? ==> balances == old(balances) && contributors == old(contributors) && events == old(events)
      ensures r.Pass? ==>
                balances == old(balances)[sender := old(BalanceOf(sender)) + amount] &&
                contributors == (if sender in old(contributors) then old(contributors) else old(contributors) + [sender]) &&
                events == old(events) + [Deposited(sender, amount)]
      ensures accountedBalance == old(accountedBalance) + (if r.Pass? then amount else 0)
      ensures InterestFields() == old(InterestFields()) && holdingToken == old(holdingToken)
    {
      if amount == 0 {
        return Fail(SmallAmount);
      }
      Credit(sender, amount);
      events := events + [Deposited(sender, amount)];
      return Pass;
    }

    /** `sponsor(amount)`: the same ledger effect as a deposit. */
    method Sponsor(sender: Address, amount: nat) returns (r: Outcome)
      requires Valid()
      modifies this
      ensures Valid()
      ensures r == (if amount == 0 then Fail(SmallAmount) else Pass)
      ensures r.Fail? ==> balances == old(balances) && contributors == old(contributors) && events == old(events)
      ensures r.Pass? ==>
                balances == old(balances)[sender := old(BalanceOf(sender)) + amount] &&
                contributors == (if sender in old(contributors) then old(contributors) else old(contributors) + [sender]) &&
                events == old(events) + [Deposited(sender, amount)]
      ensures accountedBalance == old(accountedBalance) + (if r.Pass? then amount else 0)
      ensures InterestFields() == old(InterestFields()) && holdingToken == old(holdingToken)
    {
      r := Deposit(sender, amount);
    }

    /** Adds `amount` to the sender's balance and the accounted balance, listing the sender. */
    method Credit(sender: Address, amount: nat)
      requires Valid() && amount > 0
      modifies this`balances, this`accountedBalance, this`contributors
      ensures Valid()
      ensures balances == old(balances)[sender := old(BalanceOf(sender)) + amount]
      ensures accountedBalance == old(accountedBalance) + amount
      ensures contributors == (if sender in old(contributors) then old(contributors) else old(contributors) + [sender])
    {
      var before := BalanceOf(sender);
      var newBalances := balances[sender := before + amount];
      if sender in contributors {
        SumUpdatePresent(contributors, balances, sender, before + amount);
      } else {
        assert before == 0;
        SumUpdateAbsent(contributors, balances, sender, before + amount);
        SumAppend(contributors, sender, newBalances);
        assert NoDuplicates(contributors + [sender]) by {
          var ks := contributors + [sender];
          forall i, j | 0 <= i < j < |ks| ensures ks[i] != ks[j] {
            if j == |ks| - 1 {
              assert ks[i] in contributors;
            } else {
              assert ks[i] == contributors[i] && ks[j] == contributors[j];
            }
          }
        }
        contributors := contributors + [sender];
      }
      balances := newBalances;
      accountedBalance := accountedBalance + amount;
    }

    /**
     * `withdrawAmount(amount)` by `sender`: rejected with NoFunds, changing nothing, unless
     * 0 < amount <= balanceOf(sender); otherwise the sender's balance and the accounted
     * balance fall by `amount`, a sender left with nothing stops being a contributor, and
     * Withdrawn is emitted.
     */
    method WithdrawAmount(sender: Address, amount: nat) returns (r: Outcome)
      requires Valid()
      modifies this
      ensures Valid()
      ensures r == (if 0 < amount <= old(BalanceOf(sender)) then Pass else Fail(NoFunds))
      ensures r.Fail? ==> balances == old(balances) && contributors == old(contributors) && events == old(events)
      ensures r.Pass? ==>
                balances == old(balances)[sender := old(BalanceOf(sender)) - amount] &&
                contributors == (if amount == old(BalanceOf(sender)) then Remove(old(contributors), sender) else old(contributors)) &&
                events == old(events) + [Withdrawn(sender, amount)]
      ensures accountedBalance == old(accountedBalance) - (if r.Pass? then amount else 0)
      ensures InterestFields() == old(InterestFields()) && holdingToken == old(holdingToken)
    {
      var before := BalanceOf(sender);
      if amount == 0 || amount > before {
        return Fail(NoFunds);
      }
      var newBalances := balances[sender := before - amount];
      SumUpdatePresent(contributors, balances, sender, before - amount);
      if amount == before {
        SumRemoveZero(contributors, newBalances, sender);
        contributors := Remove(contributors, sender);
      }
      balances := newBalances;
      accountedBalance := accountedBalance - amount;
      events := events + [Withdrawn(sender, amount)];
      return Pass;
    }

    /** `withdraw()`: withdraws the sender's whole balance; NoFunds when there is none. */
    method Withdraw(sender: Address) returns (r: Outcome)
      requires Valid()
      modifies this
      ensures Valid()
      ensures r == (if old(BalanceOf(sender)) > 0 then Pass else Fail(NoFunds))
      ensures BalanceOf(sender) == 0 && sender !in contributors
      ensures accountedBalance == old(accountedBalance) - old(BalanceOf(sender))
      ensures forall a :: a != sender ==> BalanceOf(a) == old(BalanceOf(a))
      ensures events == old(events) + (if r.Pass? then [Withdrawn(sender, old(BalanceOf(sender)))] else [])
      ensures InterestFields() == old(InterestFields()) && holdingToken == old(holdingToken)
    {
      r := WithdrawAmount(sender, BalanceOf(sender));
    }

    /**
     * `calculateTotalIncrementalInterest()`, given the lending position's reported underlying
     * balance and the price read now. Only the iHelp token may call it. The interest fields
     * become the accrual of the current residual interest; the ledger is untouched.
     */
    method CalculateTotalIncrementalInterest(caller: Address, underlying: nat, snap: PriceSnapshot) returns (r: Outcome)
      requires Valid()
      modifies this
      ensures Valid()
      ensures r == (if caller == helpToken then Pass else Fail(Unauthorized))
      ensures InterestFields() ==
                (if r.Pass? then Accrue(old(InterestFields()), InterestEarned(underlying, old(accountedBalance)), snap)
                 else old(InterestFields()))
      ensures balances == old(balances) && accountedBalance == old(accountedBalance) && contributors == old(contributors)
      ensures events == old(events) && holdingToken == old(holdingToken)
    {
      if caller != helpToken {
        return Fail(Unauthorized);
      }
      snapshot := snap;
      var earned := InterestEarned(underlying, accountedBalance);
      if earned > currentInterestEarned {
        var gain := earned - currentInterestEarned;
        currentInterestEarned := earned;
        redeemableInterest := redeemableInterest + gain;
        newTotalInterestEarnedUSD := ToUSD(gain, snap);
        totalInterestEarnedUSD := totalInterestEarnedUSD + newTotalInterestEarnedUSD;
      }
      return Pass;
    }

    /**
     * `redeemInterest()`: only the iHelp token may call it. With redeemable interest, that
     * amount is redeemed from the lending position, Rewarded is emitted with it, and both
     * per-cycle counters return to zero; with none, nothing happens and no event is emitted.
     */
    method RedeemInterest(caller: Address) returns (r: Result<nat>)
      requires Valid()
      modifies this
      ensures Valid()
      ensures caller != helpToken ==> r == Err(Unauthorized) && InterestFields() == old(InterestFields()) && events == old(events)
      ensures caller == helpToken ==>
                r == Ok(old(redeemableInterest)) &&
                InterestFields() == Redeem(old(InterestFields())) &&
                events == old(events) + (if old(redeemableInterest) > 0 then [Rewarded(old(redeemableInterest))] else [])
      ensures balances == old(balances) && accountedBalance == old(accountedBalance) && contributors == old(contributors)
      ensures holdingToken == old(holdingToken)
    {
      if caller != helpToken {
        return Err(Unauthorized);
      }
      var amount := redeemableInterest;
      if amount > 0 {
        redeemableInterest := 0;
        currentInterestEarned := 0;
        events := events + [Rewarded(amount)];
      }
      return Ok(amount);
    }

    /**
     * `directDonation(amount)`: zero does nothing; a fee multiplication that leaves uint256
     * reverts with Overflow; otherwise the amount is split between the staking, development
     * and charity wallets, the staking fee is swapped when the holding token is not the
     * underlying, and Rewarded is emitted. The ledger is untouched.
     */
    method DirectDonation(amount: nat) returns (r: Result<Option<Routing>>)
      requires Valid()
      modifies this`events
      ensures Valid()
      ensures amount == 0 ==> r == Ok(None) && events == old(events)
      ensures amount > 0 && amount * FeeRouter.STAKING_FEE > MAX_UINT256 ==>
                r == Err(Overflow) && events == old(events)
      ensures amount > 0 && amount * FeeRouter.STAKING_FEE <= MAX_UINT256 ==>
                r == Ok(Some(Routing(FeeRouter.SplitDonation(amount), holdingToken != token))) &&
                events == old(events) + [Rewarded(amount)]
    {
      if amount == 0 {
        return Ok(None);
      }
      if amount * FeeRouter.STAKING_FEE > MAX_UINT256 || amount * FeeRouter.DEVELOPMENT_FEE > MAX_UINT256 {
        return Err(Overflow);
      }
      r := Ok(Some(Routing(FeeRouter.SplitDonation(amount), holdingToken != token)));
      events := events + [Rewarded(amount)];
    }
  }
}
