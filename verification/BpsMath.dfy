/** Basis-point arithmetic: the quotient-and-remainder form, the plain fee, and sums of floors. */
module BpsMath {
  import opened Host
  import opened Errors

  const BPS_DENOMINATOR: int := 10_000

  function CheckedMulE(a: int, b: int): Result<int, Error> {
    CheckedMul(a, b).OkOr(Overflow)
  }

  function CheckedAddE(a: int, b: int): Result<int, Error> {
    CheckedAdd(a, b).OkOr(Overflow)
  }

  function CheckedDivE(a: int, b: int): Result<int, Error> {
    if b == 0 then Err(InvalidAmount) else CheckedDiv(a, b).OkOr(Overflow)
  }

  /** Splits the amount into quotient and remainder before multiplying. */
  function ApplyBps(amount: int, bps: int): Result<int, Error> {
    if amount <= 0 || !(0 <= bps <= BPS_DENOMINATOR) then Err(InvalidAmount)
    else
      var quotient :- CheckedDivE(amount, BPS_DENOMINATOR);
      var whole :- CheckedMulE(quotient, bps);
      var product :- CheckedMulE(amount % BPS_DENOMINATOR, bps);
      var remainder :- CheckedDivE(product, BPS_DENOMINATOR);
      CheckedAddE(whole, remainder)
  }

  function BpsOf(amount: int, bps: int): Option<int> {
    match ApplyBps(amount, bps)
    case Ok(v) => Some(v)
    case Err(_) => None
  }

  function CalculateFee(amount: int, rateBps: int): Result<int, Error> {
    if amount <= 0 then Err(PaymentInvalidAmount)
    else if !(0 <= rateBps <= BPS_DENOMINATOR) then Err(PaymentInvalidFeeRate)
    else
      var product :- CheckedMul(amount, rateBps).OkOr(PaymentFeeOverflow);
      CheckedDiv(product, BPS_DENOMINATOR).OkOr(PaymentFeeOverflow)
  }

  /** The fee and what is left of the amount. */
  function CalculateFeeSplit(amount: int, rateBps: int): Result<(int, int), Error> {
    var fee :- CalculateFee(amount, rateBps);
    var net :- CheckedSub(amount, fee).OkOr(PaymentFeeOverflow);
    Ok((fee, net))
  }

  // -------------------------------------------------------------------------
  // What these functions mean
  // -------------------------------------------------------------------------

  lemma FloorOfSplit(q: int, r: int, bps: int)
    ensures q * bps + r * bps / 10_000 == (10_000 * q + r) * bps / 10_000
  {
    var x := r * bps;
    assert (10_000 * q + r) * bps == 10_000 * (q * bps) + x;
  }

  lemma MulAtMost(a: int, b: int, c: int)
    requires 0 <= a && 0 <= b <= c
    ensures 0 <= a * b <= a * c
  {
  }

  lemma FloorAtMost(amount: int, bps: int)
    requires amount >= 0 && 0 <= bps <= 10_000
    ensures 0 <= amount * bps / 10_000 <= amount
  {
    MulAtMost(amount, bps, 10_000);
  }

  /** The exact floor, for every valid amount up to the widest one, and never an overflow. */
  lemma ApplyBpsExact(amount: I128, bps: I128)
    ensures ApplyBps(amount, bps)
         == if amount > 0 && 0 <= bps <= 10_000 then Ok(amount * bps / 10_000) else Err(InvalidAmount)
  {
    if amount > 0 && 0 <= bps <= 10_000 {
      var q, r := amount / 10_000, amount % 10_000;
      MulAtMost(q, bps, 10_000);
      MulAtMost(r, bps, 10_000);
      FloorAtMost(amount, bps);
      var whole, product, exact := q * bps, r * bps, amount * bps / 10_000;
      assert whole + product / 10_000 == exact by { FloorOfSplit(q, r, bps); }
      assert CheckedDivE(amount, BPS_DENOMINATOR) == Ok(q);
      assert CheckedMulE(q, bps) == Ok(whole);
      assert CheckedMulE(r, bps) == Ok(product);
      assert CheckedDivE(product, BPS_DENOMINATOR) == Ok(product / 10_000);
    }
  }

  /** The two fee implementations agree exactly where the plain product fits in 128 bits. */
  lemma FeeAgreesExactlyWhenProductFits(amount: I128, rateBps: I128)
    requires amount > 0 && 0 <= rateBps <= 10_000
    ensures CalculateFee(amount, rateBps).Ok? <==> amount * rateBps <= I128_MAX
    ensures CalculateFee(amount, rateBps)
         == if amount * rateBps <= I128_MAX then ApplyBps(amount, rateBps) else Err(PaymentFeeOverflow)
  {
    ApplyBpsExact(amount, rateBps);
    FloorAtMost(amount, rateBps);
    assert amount * rateBps >= 0;
  }

  /** Nothing is lost in a fee split: both parts are non-negative and add up to the amount. */
  lemma FeeSplitConserves(amount: I128, rateBps: I128)
    ensures CalculateFeeSplit(amount, rateBps).Ok?
       <==> amount > 0 && 0 <= rateBps <= 10_000 && amount * rateBps <= I128_MAX
    ensures CalculateFeeSplit(amount, rateBps).Ok? ==>
              var (fee, net) := CalculateFeeSplit(amount, rateBps).value;
              fee >= 0 && net >= 0 && fee + net == amount
              && 10_000 * fee <= amount * rateBps < 10_000 * (fee + 1)
  {
    if amount > 0 && 0 <= rateBps <= 10_000 {
      FeeAgreesExactlyWhenProductFits(amount, rateBps);
      ApplyBpsExact(amount, rateBps);
      FloorAtMost(amount, rateBps);
    }
  }

  // -------------------------------------------------------------------------
  // Sums of floors
  // -------------------------------------------------------------------------

  function Sum(xs: seq<int>): int {
    if xs == [] then 0 else Sum(xs[..|xs| - 1]) + xs[|xs| - 1]
  }

  /** Each share floored on its own, then added. */
  function FloorSum(amount: int, shares: seq<int>): int {
    if shares == [] then 0
    else FloorSum(amount, shares[..|shares| - 1]) + amount * shares[|shares| - 1] / 10_000
  }

  /** Flooring each share separately never pays more than the shares together. */
  lemma {:induction false} FloorSumBound(amount: int, shares: seq<int>)
    ensures 10_000 * FloorSum(amount, shares) <= amount * Sum(shares)
  {
    if shares != [] {
      var front, last := shares[..|shares| - 1], shares[|shares| - 1];
      FloorSumBound(amount, front);
      assert amount * Sum(shares) == amount * Sum(front) + amount * last;
    }
  }

  /** On a whole multiple of the denominator there is nothing to round. */
  lemma {:induction false} FloorSumExact(k: int, shares: seq<int>)
    ensures FloorSum(10_000 * k, shares) == k * Sum(shares)
  {
    if shares != [] {
      var front, last := shares[..|shares| - 1], shares[|shares| - 1];
      FloorSumExact(k, front);
      assert 10_000 * k * last == 10_000 * (k * last);
      assert k * Sum(shares) == k * Sum(front) + k * last;
    }
  }

  lemma {:induction false} FloorSumNonNegative(amount: int, shares: seq<int>)
    requires amount >= 0 && forall i :: 0 <= i < |shares| ==> shares[i] >= 0
    ensures FloorSum(amount, shares) >= 0 && Sum(shares) >= 0
  {
    if shares != [] {
      FloorSumNonNegative(amount, shares[..|shares| - 1]);
      assert amount * shares[|shares| - 1] >= 0;
    }
  }
}
