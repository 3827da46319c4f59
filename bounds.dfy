/** The pre-submit check and the risk label shared by both components
    (App and Card carry identical copies of `validate` and `isDanger`). */
module Bounds {
  import opened Calculator

  /** The static band `validate` enforces. */
  const MinEthValue: real := 0.01
  const MaxEthValue: real := 0.1
  const MinPercent: real := 10.0
  const MaxPercent: real := 60.0

  /** Percent above which a position is labelled dangerous. */
  const DangerPercent: real := 50.0

  const WrongValueText: string :=
    "Wrong value.\nETH must be between 0.01 and 0.1.\nRatio must be between 10% and 60%"
  const NoEnoughEthText: string := "You have no enough ETH"

  /** `validate` either returns or throws an Error with a message. */
  datatype Outcome = Passed | Thrown(message: string)

  /** The arguments of the `riskNewCDP` transaction, or the message of
      the error that `validate` threw instead. */
  datatype Submission =
    | RiskNewCdp(collateral: real, debt: real, value: real, from: string)
    | Refused(message: string)

  predicate InRange(ethValue: real, percent: real) {
    MinEthValue <= ethValue <= MaxEthValue && MinPercent <= percent <= MaxPercent
  }

  /** Range first, then balance; the first failure is the one thrown.
      All four range boundaries are accepted. */
  function Validate(ethValue: real, percent: real, ethBalance: real): (o: Outcome)
    ensures o == Thrown(WrongValueText) <==> !InRange(ethValue, percent)
    ensures o == Thrown(NoEnoughEthText) <==> InRange(ethValue, percent) && ethBalance < ethValue
    ensures o == Passed <==> InRange(ethValue, percent) && ethValue <= ethBalance
  {
    assert |WrongValueText| != |NoEnoughEthText|;
    if ethValue > 0.1 || ethValue < 0.01 || percent > 60.0 || percent < 10.0 then
      Thrown(WrongValueText)
    else if ethBalance < ethValue then
      Thrown(NoEnoughEthText)
    else
      Passed
  }

  /** `percent > 50` */
  predicate IsDanger(percent: real) {
    percent > DangerPercent
  }

  /** The danger label is a strict threshold: 50 is safe, anything above is not. */
  lemma DangerThreshold(percent: real)
    ensures !IsDanger(50.0) && IsDanger(60.0)
    ensures IsDanger(percent) <==> percent > 50.0
  {
  }

  /** The label follows the liquidation price: for a real deposit at a
      positive price, a position is dangerous exactly when its projected
      liquidation price exceeds three quarters of the current price. */
  lemma DangerIffLiquidationAboveThreeQuartersOfPrice(ethValue: real, percent: real, ethPrice: real)
    requires ethValue > 0.0 && ethPrice > 0.0
    ensures IsDanger(percent)
        <==> Project(ethValue, percent, ethPrice).liquidationPrice > 0.75 * ethPrice
  {
    DebtVanishesWithCollateral(ethValue, percent, ethPrice);
    LiquidationPriceClosedForm(ethValue, percent, ethPrice);
    var r := Ratio(percent);
    if Collateral(ethValue, percent) != 0.0 {
      assert 1.5 * ethPrice * r - 0.75 * ethPrice == 1.5 * ethPrice * (r - 0.5);
      if r > 0.5 {
        PositiveProduct(1.5 * ethPrice, r - 0.5);
      } else {
        NonnegativeProduct(1.5 * ethPrice, 0.5 - r);
      }
    }
  }
}
