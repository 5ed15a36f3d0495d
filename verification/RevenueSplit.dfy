/** Publisher and platform shares of a sale, in integer cents and basis points. */
module RevenueSplit {

  const FULL_SHARE := 10000

  /** The integer nearest to n / FULL_SHARE, ties going to the even neighbour (Decimal.quantize's default). */
  function HalfEven(n: int): (q: int)
  {
    var floor := n / FULL_SHARE;
    var rest := n % FULL_SHARE;
    if 2 * rest < FULL_SHARE then floor
    else if 2 * rest > FULL_SHARE then floor + 1
    else if floor % 2 == 0 then floor
    else floor + 1
  }

  /** What "round half to even" means, without saying how to compute it. */
  predicate IsHalfEven(n: int, q: int)
  {
    && -FULL_SHARE <= 2 * (n - FULL_SHARE * q) <= FULL_SHARE
    && (2 * (n - FULL_SHARE * q) == FULL_SHARE || 2 * (n - FULL_SHARE * q) == -FULL_SHARE ==> q % 2 == 0)
  }

  lemma HalfEvenIsTheNearest(n: int, q: int)
    ensures IsHalfEven(n, q) <==> q == HalfEven(n)
  {
  }

  datatype Shares = Shares(publisher: int, platform: int)

  function Split(amount: int, bps: int): Shares
  {
    var publisher := HalfEven(amount * bps);
    Shares(publisher, amount - publisher)
  }

  lemma SplitIsExact(amount: int, bps: int)
    ensures Split(amount, bps).publisher + Split(amount, bps).platform == amount
    ensures IsHalfEven(amount * bps, Split(amount, bps).publisher)
    ensures -FULL_SHARE / 2 <= FULL_SHARE * Split(amount, bps).publisher - amount * bps <= FULL_SHARE / 2
  {
    HalfEvenIsTheNearest(amount * bps, HalfEven(amount * bps));
  }

  lemma NonNegativeShares(amount: nat, bps: int)
    requires 0 <= bps <= FULL_SHARE
    ensures 0 <= Split(amount, bps).publisher <= amount
    ensures 0 <= Split(amount, bps).platform <= amount
  {
    assert 0 <= amount * bps <= amount * FULL_SHARE;
    SplitIsExact(amount, bps);
  }

  /** Both shares are non-negative on every sale exactly when the rate is a proper share. */
  lemma SharesNonNegativeIffProperRate(bps: int)
    ensures (forall amount: nat :: Split(amount, bps).publisher >= 0 && Split(amount, bps).platform >= 0)
       <==> 0 <= bps <= FULL_SHARE
  {
    if 0 <= bps <= FULL_SHARE {
      forall amount: nat
        ensures Split(amount, bps).publisher >= 0 && Split(amount, bps).platform >= 0
      {
        NonNegativeShares(amount, bps);
      }
    } else {
      var large: nat := FULL_SHARE;
      assert IsHalfEven(large * bps, bps);
      HalfEvenIsTheNearest(large * bps, bps);
      assert Split(large, bps) == Shares(bps, FULL_SHARE - bps);
    }
  }
}
