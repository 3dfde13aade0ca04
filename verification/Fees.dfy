/** The fee snapshot of an invoice and the provider's own cost. */
module Fees {
  import opened Basics
  import opened MoneyMath

  datatype FeeMode = CUSTOMER | MERCHANT | SPLIT

  /** All amounts in Toman. */
  datatype FeeBreakdown = FeeBreakdown(
    baseAmount: int,
    customerTotal: int,
    platformFee: int,
    customerFeeShare: int,
    merchantFeeShare: int,
    merchantNet: int)

  datatype FeeError =
    | WrongCurrency
    | NonPositiveBase
    | ConservationViolation
    | FeeExceedsBase
    | NegativeCollected
    | ProviderFeeExceedsCollected

  function BpsOf(amount: int, bps: nat, mode: Rounding): int {
    Rounded(amount * bps, 10_000, mode)
  }

  function CalculateFees(base: Money, mode: FeeMode, rateBps: nat, rounding: Rounding := FLOOR): Result<FeeBreakdown, FeeError> {
    if base.currency != TOMAN then Err(WrongCurrency)
    else if base.atomic <= 0 then Err(NonPositiveBase)
    else
      var totalFee := BpsOf(base.atomic, rateBps, rounding);
      var customerShare := match mode
                           case CUSTOMER => totalFee
                           case MERCHANT => 0
                           case SPLIT => Rounded(totalFee, 2, FLOOR);
      var merchantShare := match mode
                           case CUSTOMER => 0
                           case MERCHANT => totalFee
                           case SPLIT => totalFee - customerShare;
      var customerTotal := base.atomic + customerShare;
      var merchantNet := base.atomic - merchantShare;
      var platformFee := customerShare + merchantShare;
      if customerTotal - platformFee != merchantNet then Err(ConservationViolation)
      else if merchantNet < 0 then Err(FeeExceedsBase)
      else Ok(FeeBreakdown(base.atomic, customerTotal, platformFee, customerShare, merchantShare, merchantNet))
  }

  /** The provider's fee on what it collected, rounded up. */
  function CalculateProviderCost(collected: Money, rateBps: nat): Result<int, FeeError> {
    if collected.currency != TOMAN then Err(WrongCurrency)
    else if collected.atomic < 0 then Err(NegativeCollected)
    else
      var fee := BpsOf(collected.atomic, rateBps, CEIL);
      if fee > collected.atomic then Err(ProviderFeeExceedsCollected) else Ok(fee)
  }

  /** Which share of the fee each mode puts on the customer. */
  ghost predicate SharesFollowMode(b: FeeBreakdown, mode: FeeMode) {
    match mode
    case CUSTOMER => b.merchantFeeShare == 0
    case MERCHANT => b.customerFeeShare == 0
    case SPLIT => 0 <= b.merchantFeeShare - b.customerFeeShare <= 1
  }

  /**
   In every mode, at every rate and rounding, a positive Toman base is refused only when the fee taken from
   the merchant exceeds it, and otherwise each Toman the customer pays is platform fee or merchant credit.
   */
  lemma FeesConserveValue(base: int, mode: FeeMode, rateBps: nat, rounding: Rounding)
    requires base > 0
    ensures var r := CalculateFees(Money(base, TOMAN), mode, rateBps, rounding);
            match r
            case Ok(b) =>
              && b.customerTotal - b.platformFee == b.merchantNet
              && b.customerFeeShare + b.merchantFeeShare == b.platformFee
              && b.customerTotal - b.customerFeeShare == b.baseAmount == base
              && b.merchantNet >= 0 && b.platformFee >= 0 && b.customerTotal > 0
              && SharesFollowMode(b, mode)
              && RoundsTo(base * rateBps, 10_000, rounding, b.platformFee)
            case Err(e) => e == FeeExceedsBase && mode != CUSTOMER
  {
    RoundedIsRounding(base * rateBps, 10_000, rounding);
    NonNegativeRounds(base, rateBps, rounding);
    RoundedIsRounding(BpsOf(base, rateBps, rounding), 2, FLOOR);
  }

  lemma NonNegativeRounds(amount: nat, bps: nat, rounding: Rounding)
    ensures BpsOf(amount, bps, rounding) >= 0
  {
    assert amount * bps >= 0;
  }

  /** The provider's cost is the rate on what was collected, rounded up, and is refused only when it exceeds that. */
  lemma ProviderCostRoundsUp(collected: int, rateBps: nat, fee: int)
    ensures CalculateProviderCost(Money(collected, GRAM), rateBps) == Err(WrongCurrency)
    ensures collected < 0 ==> CalculateProviderCost(Money(collected, TOMAN), rateBps) == Err(NegativeCollected)
    ensures collected >= 0 && 10_000 * fee - 10_000 < collected * rateBps <= 10_000 * fee ==>
              CalculateProviderCost(Money(collected, TOMAN), rateBps)
                == if fee > collected then Err(ProviderFeeExceedsCollected) else Ok(fee)
  {
    RoundedIsRounding(collected * rateBps, 10_000, CEIL);
  }

  /**
   At 15% platform and 9% provider rates the floored platform fee covers the rounded-up provider fee on what
   the customer pays exactly for every base of at least 14 Toman and for a few below it.
   */
  lemma PlatformFeeCoversProviderFee(base: int, mode: FeeMode)
    requires base > 0
    ensures var fees := CalculateFees(Money(base, TOMAN), mode, 1500);
            && fees.Ok?
            && var cost := CalculateProviderCost(Money(fees.value.customerTotal, TOMAN), 900);
               && cost.Ok?
               && (fees.value.platformFee >= cost.value
                   <==> base >= 14 || 7 <= base <= (if mode == CUSTOMER then 10 else 11))
  {
    var fees := CalculateFees(Money(base, TOMAN), mode, 1500);
    FeesConserveValue(base, mode, 1500, FLOOR);
    var fee := BpsOf(base, 1500, FLOOR);
    RoundedIsRounding(base * 1500, 10_000, FLOOR);
    assert fee * 10_000 <= base * 1500 < fee * 10_000 + 10_000;
    if fees.Ok? {
      var total := fees.value.customerTotal;
      RoundedIsRounding(total * 900, 10_000, CEIL);
      NonNegativeRounds(total, 900, CEIL);
    }
  }
}
