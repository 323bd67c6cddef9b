/** uint256 exponentiation used for decimal scaling (`safepow`). */
module SafeMath {
  import opened Outcomes

  /** The largest value of a Solidity uint256, 2^256 - 1. */
  const MAX_UINT256: nat := 0xffffffffffffffffffffffffffffffffffffffffffffffffffffffffffffffff

  /** Mathematical exponentiation on unbounded naturals, with 0^0 = 1. */
  function Pow(base: nat, exponent: nat): (r: nat)
    ensures base >= 1 ==> r >= 1
    ensures base == 0 && exponent > 0 ==> r == 0
    decreases exponent
  {
    if exponent == 0 then 1 else base * Pow(base, exponent - 1)
  }

  /** For a base of at least one, a larger exponent never gives a smaller power. */
  lemma {:induction false} PowMonotone(base: nat, i: nat, j: nat)
    requires base >= 1 && i <= j
    ensures Pow(base, i) <= Pow(base, j)
    decreases j - i
  {
    if i < j {
      PowMonotone(base, i + 1, j);
      assert Pow(base, i + 1) == base * Pow(base, i);
    }
  }

  /** Powers add their exponents: b^(m+n) == b^m * b^n. */
  lemma {:induction false} PowAdd(base: nat, m: nat, n: nat)
    ensures Pow(base, m + n) == Pow(base, m) * Pow(base, n)
    decreases n
  {
    if n > 0 {
      PowAdd(base, m, n - 1);
      calc {
        Pow(base, m + n);
        base * Pow(base, m + n - 1);
        base * (Pow(base, m) * Pow(base, n - 1));
        Pow(base, m) * (base * Pow(base, n - 1));
        Pow(base, m) * Pow(base, n);
      }
    }
  }

  /**
   * `safepow(base, exponent)` on uint256 arguments: 1 for a zero exponent (so 0^0 = 1),
   * 0 for a zero base and a positive exponent, otherwise the power by repeated checked
   * multiplication, reverting with Overflow as soon as a partial product leaves uint256.
   */
  method SafePow(base: nat, exponent: nat) returns (r: Result<nat>)
    requires base <= MAX_UINT256 && exponent <= MAX_UINT256
    ensures r.Ok? <==> Pow(base, exponent) <= MAX_UINT256
    ensures r.Ok? ==> r.value == Pow(base, exponent)
    ensures r.Err? ==> r.error == Overflow
  {
    if exponent == 0 {
      return Ok(1);
    }
    if base == 0 {
      return Ok(0);
    }
    var z: nat := 1;
    var i: nat := 0;
    while i < exponent
      invariant i <= exponent
      invariant z == Pow(base, i)
      invariant z <= MAX_UINT256
    {
      if z * base > MAX_UINT256 {
        assert Pow(base, i + 1) == base * z;
        PowMonotone(base, i + 1, exponent);
        return Err(Overflow);
      }
      z := z * base;
      i := i + 1;
    }
    return Ok(z);
  }
}
