/**
 * The platform's fee rules.  Amounts are exact reals; rounding to cents
 * follows `Number.prototype.toFixed(2)` (to the nearest cent, halves away
 * from zero) and rounding to whole coins follows `Math.round` (halves up).
 */
module FeeUtils {
  import opened Wrappers

  const PlatformFeePercentage: real := 0.05
  const NftMintingFeeUsd: real := 10.0
  const StorageFeeUsd: real := 2.0
  const AuthFeeMinUsd: real := 5.0
  const AuthFeeMaxUsd: real := 1000.0
  const UsdToStampCoinRate: real := 100.0
  const UsdToStampCoinMintingRate: real := 10.0

  /** `Math.round(x)`: the nearest integer, halves rounded up. */
  function Round(x: real): (r: int)
    ensures x - 0.5 < r as real <= x + 0.5
  {
    (x + 0.5).Floor
  }

  /** A whole number of cents. */
  predicate IsCents(x: real)
  {
    (100.0 * x).Floor as real == 100.0 * x
  }

  /** `parseFloat(x.toFixed(2))`: the nearest cent, halves away from zero. */
  function Round2(x: real): (r: real)
    ensures IsCents(r)
    ensures x - 0.005 <= r <= x + 0.005
    ensures x >= 0.0 ==> r >= 0.0
    ensures x <= 0.0 ==> r <= 0.0
  {
    if x >= 0.0 then
      var k := Round(100.0 * x);
      CentsOf(k);
      k as real / 100.0
    else
      var k := Round(-100.0 * x);
      CentsOf(-k);
      (-k) as real / 100.0
  }

  lemma CentsOf(k: int)
    ensures IsCents(k as real / 100.0)
  {
    assert 100.0 * (k as real / 100.0) == k as real;
  }

  /** An amount already in cents is left as it is. */
  lemma Round2OfCents(x: real)
    requires IsCents(x)
    ensures Round2(x) == x
  {
    var k := (100.0 * x).Floor;
    if x >= 0.0 {
      assert (100.0 * x + 0.5).Floor == k;
    } else {
      assert (-100.0 * x).Floor == -k;
      assert (-100.0 * x + 0.5).Floor == -k;
    }
  }

  lemma RoundMonotone(x: real, y: real)
    requires x <= y
    ensures Round(x) <= Round(y)
  {
  }

  /** Rounding to cents keeps the order of amounts. */
  lemma Round2Monotone(x: real, y: real)
    requires x <= y
    ensures Round2(x) <= Round2(y)
  {
    if x >= 0.0 {
      RoundMonotone(100.0 * x, 100.0 * y);
    } else if y < 0.0 {
      RoundMonotone(-100.0 * y, -100.0 * x);
    }
  }

  function Max(a: real, b: real): real { if a >= b then a else b }
  function Min(a: real, b: real): real { if a <= b then a else b }

  /** `calculateAuthenticationFee`: 5% of the value, clamped to [5, 1000], in cents. */
  function AuthenticationFee(estimatedValue: real): (r: real)
    ensures IsCents(r)
  {
    Round2(Max(AuthFeeMinUsd, Min(estimatedValue * PlatformFeePercentage, AuthFeeMaxUsd)))
  }

  /** The authentication fee never leaves the band [5, 1000]. */
  lemma AuthenticationFeeBounds(estimatedValue: real)
    ensures 5.0 <= AuthenticationFee(estimatedValue) <= 1000.0
  {
    var clamped := Max(AuthFeeMinUsd, Min(estimatedValue * PlatformFeePercentage, AuthFeeMaxUsd));
    Round2OfCents(5.0);
    Round2OfCents(1000.0);
    Round2Monotone(5.0, clamped);
    Round2Monotone(clamped, 1000.0);
  }

  /** A higher value never costs a lower authentication fee. */
  lemma AuthenticationFeeMonotone(v: real, w: real)
    requires v <= w
    ensures AuthenticationFee(v) <= AuthenticationFee(w)
  {
    Round2Monotone(Max(5.0, Min(v * 0.05, 1000.0)), Max(5.0, Min(w * 0.05, 1000.0)));
  }

  /**
   * Between 100 and 20000 the authentication fee is the platform fee;
   * below it is the minimum and above it the maximum.
   */
  lemma AuthenticationFeeBands(v: real)
    ensures 100.0 <= v <= 20000.0 ==> AuthenticationFee(v) == PlatformFee(v)
    ensures v <= 100.0 ==> AuthenticationFee(v) == 5.0
    ensures v >= 20000.0 ==> AuthenticationFee(v) == 1000.0
  {
    Round2OfCents(5.0);
    Round2OfCents(1000.0);
  }

  /** `getNFTMintingFee` */
  function NftMintingFee(): (r: real)
    ensures r == 10.0
  {
    NftMintingFeeUsd
  }

  /** `getStorageFee` */
  function StorageFee(): (r: real)
    ensures r == 2.0
  {
    StorageFeeUsd
  }

  /** `convertToStampCoin`: 100 coins per dollar, rounded to a whole coin. */
  function ConvertToStampCoin(usdValue: real): (r: int)
    ensures 100.0 * usdValue - 0.5 < r as real <= 100.0 * usdValue + 0.5
  {
    Round(usdValue * UsdToStampCoinRate)
  }

  /** A whole number of cents converts exactly: one coin per cent. */
  lemma ConvertCentsExactly(usdValue: real)
    requires IsCents(usdValue)
    ensures ConvertToStampCoin(usdValue) as real == 100.0 * usdValue
  {
    assert (usdValue * 100.0 + 0.5).Floor == (100.0 * usdValue).Floor;
  }

  /** The conversions from the conversion tests. */
  lemma ConvertExamples()
    ensures ConvertToStampCoin(100.0) == 10000 && ConvertToStampCoin(1.0) == 100
    ensures ConvertToStampCoin(1.234) == 123 && ConvertToStampCoin(0.5) == 50
  {
  }

  /** `calculatePlatformFee`: 5% of the transaction value, in cents. */
  function PlatformFee(transactionValue: real): (r: real)
    ensures IsCents(r)
    ensures 0.05 * transactionValue - 0.005 <= r <= 0.05 * transactionValue + 0.005
  {
    Round2(transactionValue * PlatformFeePercentage)
  }

  /** A value of a whole number of dollars carries an exact 5% fee. */
  lemma PlatformFeeOfDollars(dollars: int)
    ensures PlatformFee(dollars as real) == 0.05 * dollars as real
  {
    assert 0.05 * dollars as real == (5 * dollars) as real / 100.0;
    CentsOf(5 * dollars);
    Round2OfCents(0.05 * dollars as real);
  }

  /** A price: `None` is `undefined` or `null`. */
  type Price = Option<real>

  /** `price ? ... : 0`: a missing or zero price contributes nothing. */
  predicate Truthy(price: Price)
  {
    price.Some? && price.value != 0.0
  }

  /** One price's share of the total: its platform fee, or nothing for a missing or zero price. */
  function FeeOf(price: Price): (r: real)
    ensures IsCents(r)
    ensures price.Some? && price.value >= 0.0 ==> r >= 0.0
  {
    if Truthy(price) then PlatformFee(price.value) else 0.0
  }

  /** The `reduce` of `calculateTotalPlatformFee`: the running sum of the per-price fees. */
  function SumOfFees(prices: seq<Price>): (r: real)
    ensures IsCents(r)
  {
    if prices == [] then 0.0
    else
      var sum := SumOfFees(prices[..|prices| - 1]);
      var fee := FeeOf(prices[|prices| - 1]);
      assert IsCents(sum + fee) by { CentsAdd(sum, fee); }
      sum + fee
  }

  lemma CentsAdd(a: real, b: real)
    requires IsCents(a) && IsCents(b)
    ensures IsCents(a + b)
  {
    var m := (100.0 * a).Floor;
    var n := (100.0 * b).Floor;
    assert 100.0 * (a + b) == (m + n) as real;
  }

  /** `calculateTotalPlatformFee(...prices)` */
  function TotalPlatformFee(prices: seq<Price>): (r: real)
    ensures IsCents(r)
  {
    Round2(SumOfFees(prices))
  }

  /** Prices that are missing or not negative give a total that is not negative. */
  lemma {:induction false} SumOfFeesNonNegative(prices: seq<Price>)
    requires forall i :: 0 <= i < |prices| && prices[i].Some? ==> prices[i].value >= 0.0
    ensures SumOfFees(prices) >= 0.0
    decreases |prices|
  {
    if prices != [] {
      var front := prices[..|prices| - 1];
      assert forall i :: 0 <= i < |front| ==> front[i] == prices[i];
      SumOfFeesNonNegative(front);
    }
  }

  /** No negative price, no negative total. */
  lemma TotalNonNegative(prices: seq<Price>)
    requires forall i :: 0 <= i < |prices| && prices[i].Some? ==> prices[i].value >= 0.0
    ensures TotalPlatformFee(prices) >= 0.0
  {
    SumOfFeesNonNegative(prices);
  }

  /** The final rounding changes nothing: the total is the exact sum of the rounded fees. */
  lemma TotalIsSumOfFees(prices: seq<Price>)
    ensures TotalPlatformFee(prices) == SumOfFees(prices)
  {
    Round2OfCents(SumOfFees(prices));
  }

  lemma {:induction false} SumOfFeesAppend(a: seq<Price>, b: seq<Price>)
    ensures SumOfFees(a + b) == SumOfFees(a) + SumOfFees(b)
    decreases |b|
  {
    if b == [] {
      assert a + b == a;
    } else {
      var c := b[..|b| - 1];
      assert (a + b)[..|a + b| - 1] == a + c;
      assert (a + b)[|a + b| - 1] == b[|b| - 1];
      SumOfFeesAppend(a, c);
    }
  }

  /** A missing price can be dropped from the list without changing the total. */
  lemma MissingPriceIgnored(a: seq<Price>, b: seq<Price>)
    ensures TotalPlatformFee(a + [None] + b) == TotalPlatformFee(a + b)
  {
    SumOfFeesAppend(a + [None], b);
    SumOfFeesAppend(a, [None]);
    SumOfFeesAppend(a, b);
    var missing: seq<Price> := [None];
    assert SumOfFees(missing) == 0.0 by {
      assert missing[..0] == [];
    }
  }

  /** The totals from the total-fee tests. */
  lemma TotalExamples()
    ensures TotalPlatformFee([Some(100.0), Some(200.0)]) == 15.0
    ensures TotalPlatformFee([Some(100.0), None, Some(200.0)]) == 15.0
    ensures TotalPlatformFee([None, None]) == 0.0
  {
    PlatformFeeOfDollars(100);
    PlatformFeeOfDollars(200);
    var two := [Some(100.0), Some(200.0)];
    assert two[..1] == [Some(100.0)] && [Some(100.0)][..0] == [];
    assert SumOfFees(two) == 15.0;
    TotalIsSumOfFees(two);
    MissingPriceIgnored([Some(100.0)], [Some(200.0)]);
    assert [Some(100.0)] + [None] + [Some(200.0)] == [Some(100.0), None, Some(200.0)];
    assert [Some(100.0)] + [Some(200.0)] == two;
    var nones: seq<Price> := [None, None];
    assert nones[..1][..0] == [];
    TotalIsSumOfFees(nones);
  }
}
