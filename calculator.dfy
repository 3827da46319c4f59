/** The looped-CDP position calculator: from the ETH to lock, the
    rehypothecation percent and the ETH price it projects the collateral,
    the debt, the return, the collateralization rate and the liquidation
    price of the position. */
module Calculator {
  import opened Js

  /** Re-lending rounds added to the deposit, and rounds of borrowing. */
  const CollateralRounds: nat := 3
  const DebtRounds: nat := 4

  /** `Math.round(100 / ratio)`. At ratio 0 JavaScript divides by zero
      and the rate is Infinity. */
  datatype Rate = Finite(percent: int) | Infinite

  /** The five values the calculator writes into the component state. */
  datatype Projection = Projection(
    collateral: real,
    debt: real,
    liquidationPrice: real,
    returnValue: real,
    collateralizationRate: Rate)

  function Ratio(percent: real): real {
    percent / 100.0
  }

  /** The amount added in round n of a loop that starts from `start`
      and multiplies by r each round: start * r^n. */
  function Increment(start: real, r: real, n: nat): real {
    if n == 0 then start else Increment(start, r, n - 1) * r
  }

  /** An accumulator that starts at `init` and adds the increments of
      rounds 1..n. */
  function Accumulated(init: real, start: real, r: real, n: nat): real {
    if n == 0 then init else Accumulated(init, start, r, n - 1) + Increment(start, r, n)
  }

  /** The share of the deposit that the three re-lending rounds add:
      r + r^2 + r^3. */
  function Relent(percent: real): real {
    var r := Ratio(percent);
    r + r * r + r * r * r
  }

  /** What the four borrowing rounds raise per ETH deposited and per DAI
      of ETH price: r + r^2 + r^3 + r^4. */
  function Borrowed(percent: real): real {
    var r := Ratio(percent);
    r + r * r + r * r * r + r * r * r * r
  }

  /** Closed form of the collateral: ethValue * (1 + r + r^2 + r^3). */
  function Collateral(ethValue: real, percent: real): real {
    ethValue * (1.0 + Relent(percent))
  }

  /** Closed form of the debt: ethValue * ethPrice * (r + r^2 + r^3 + r^4). */
  function Debt(ethValue: real, percent: real, ethPrice: real): real {
    ethValue * ethPrice * Borrowed(percent)
  }

  /** DAI left after paying, at the initial price, for the ETH that was
      re-deposited on top of the initial ETH. */
  function ReturnValue(ethValue: real, ethPrice: real, collateral: real, debt: real): real {
    debt - (collateral - ethValue) * ethPrice
  }

  /** `((debt / collateral / 2) * 3) || 0`. With exact reals the only
      falsy quotient other than 0 itself is 0/0 (NaN): DebtVanishesWithCollateral
      shows that a zero collateral always comes with a zero debt. */
  function LiquidationPrice(collateral: real, debt: real): real {
    if collateral == 0.0 then 0.0 else debt / collateral / 2.0 * 3.0
  }

  function CollateralizationRate(percent: real): Rate {
    if percent == 0.0 then Infinite else Finite(Round(100.0 / Ratio(percent)))
  }

  /** The projection the calculator is meant to produce. */
  function Project(ethValue: real, percent: real, ethPrice: real): Projection {
    var collateral := Collateral(ethValue, percent);
    var debt := Debt(ethValue, percent, ethPrice);
    Projection(collateral, debt, LiquidationPrice(collateral, debt),
               ReturnValue(ethValue, ethPrice, collateral, debt),
               CollateralizationRate(percent))
  }

  /** Three re-lending rounds on top of the deposit give the closed-form
      collateral. */
  lemma {:induction false} CollateralLoopClosedForm(ethValue: real, percent: real)
    ensures Accumulated(ethValue, ethValue, Ratio(percent), CollateralRounds)
         == Collateral(ethValue, percent)
  {
    var r := Ratio(percent);
    assert Increment(ethValue, r, 1) == ethValue * r;
    assert Increment(ethValue, r, 2) == ethValue * (r * r);
    assert Increment(ethValue, r, 3) == ethValue * (r * r * r);
    assert Accumulated(ethValue, ethValue, r, 1) == ethValue + ethValue * r;
    assert Accumulated(ethValue, ethValue, r, 2) == ethValue + ethValue * r + ethValue * (r * r);
    calc {
      Accumulated(ethValue, ethValue, r, 3);
      ethValue + ethValue * r + ethValue * (r * r) + ethValue * (r * r * r);
      ethValue * (1.0 + Relent(percent));
    }
  }

  /** Four borrowing rounds starting from the price give the debt per ETH
      deposited. */
  lemma {:induction false} DebtLoopClosedForm(ethPrice: real, percent: real)
    ensures Accumulated(0.0, ethPrice, Ratio(percent), DebtRounds)
         == ethPrice * Borrowed(percent)
  {
    var r := Ratio(percent);
    assert Increment(ethPrice, r, 1) == ethPrice * r;
    assert Increment(ethPrice, r, 2) == ethPrice * (r * r);
    assert Increment(ethPrice, r, 3) == ethPrice * (r * r * r);
    assert Increment(ethPrice, r, 4) == ethPrice * (r * r * r * r);
    assert Accumulated(0.0, ethPrice, r, 1) == ethPrice * r;
    assert Accumulated(0.0, ethPrice, r, 2) == ethPrice * r + ethPrice * (r * r);
    assert Accumulated(0.0, ethPrice, r, 3) == ethPrice * r + ethPrice * (r * r) + ethPrice * (r * r * r);
    calc {
      Accumulated(0.0, ethPrice, r, 4);
      ethPrice * r + ethPrice * (r * r) + ethPrice * (r * r * r) + ethPrice * (r * r * r * r);
      ethPrice * Borrowed(percent);
    }
  }

  lemma DebtScaledByDeposit(ethValue: real, percent: real, ethPrice: real)
    ensures Accumulated(0.0, ethPrice, Ratio(percent), DebtRounds) * ethValue
         == Debt(ethValue, percent, ethPrice)
  {
    DebtLoopClosedForm(ethPrice, percent);
    var b := Borrowed(percent);
    assert ethPrice * b * ethValue == ethValue * ethPrice * b;
  }

  /** Once collateral and debt have their closed forms, the values derived
      from them as `calculateValues` writes them are the projection. */
  lemma DerivedValues(ethValue: real, percent: real, ethPrice: real, collateral: real, debt: real)
    requires collateral == Collateral(ethValue, percent)
    requires debt == Debt(ethValue, percent, ethPrice)
    ensures Projection(collateral, debt,
                       if collateral == 0.0 then 0.0 else debt / collateral / 2.0 * 3.0,
                       debt - (collateral - ethValue) * ethPrice,
                       if percent == 0.0 then Infinite else Finite(Round(100.0 / (percent / 100.0))))
         == Project(ethValue, percent, ethPrice)
  {
  }

  /** One of `calculateValues`' loops: `rounds` times, multiply the
      current increment by the ratio and add it to the accumulator. */
  method Rounds(init: real, start: real, ratio: real, rounds: nat) returns (acc: real)
    ensures acc == Accumulated(init, start, ratio, rounds)
  {
    var currentValue := start;
    acc := init;
    for i := 0 to rounds
      invariant currentValue == Increment(start, ratio, i)
      invariant acc == Accumulated(init, start, ratio, i)
    {
      currentValue := currentValue * ratio;
      acc := acc + currentValue;
    }
  }

  /** `calculateValues`: three rounds re-supply the latest increment times
      the ratio as collateral on top of the deposit; four rounds borrow the
      price times growing powers of the ratio, scaled by the deposit at the
      end. The result is the closed-form projection. */
  method CalculateValues(ethValue: real, percent: real, ethPrice: real) returns (p: Projection)
    ensures p == Project(ethValue, percent, ethPrice)
  {
    var ratio := percent / 100.0;
    var collateral := Rounds(ethValue, ethValue, ratio, CollateralRounds);
    var debt := Rounds(0.0, ethPrice, ratio, DebtRounds);
    debt := debt * ethValue;
    CollateralLoopClosedForm(ethValue, percent);
    DebtScaledByDeposit(ethValue, percent, ethPrice);
    var returnValue := debt - (collateral - ethValue) * ethPrice;
    var collateralizationRate := if percent == 0.0 then Infinite
                                 else Finite(Round(100.0 / (percent / 100.0)));
    var liquidationPrice := if collateral == 0.0 then 0.0 else debt / collateral / 2.0 * 3.0;
    p := Projection(collateral, debt, liquidationPrice, returnValue, collateralizationRate);
    DerivedValues(ethValue, percent, ethPrice, collateral, debt);
  }

  lemma NonzeroProduct(a: real, b: real)
    requires a != 0.0 && b != 0.0
    ensures a * b != 0.0
  {
  }

  lemma Distribute(a: real, b: real, c: real)
    ensures a * (b + c) == a * b + a * c
    ensures a * (b - c) == a * b - a * c
  {
  }

  lemma PositiveProduct(a: real, b: real)
    requires a > 0.0 && b > 0.0
    ensures a * b > 0.0
  {
  }

  lemma NonnegativeProduct(a: real, b: real)
    requires a >= 0.0 && b >= 0.0
    ensures a * b >= 0.0
  {
  }

  /** Borrowing runs one round ahead of re-lending: r^1..r^4 against r^0..r^3. */
  lemma BorrowedIsRatioTimesCollateralShare(percent: real)
    ensures Borrowed(percent) == Ratio(percent) * (1.0 + Relent(percent))
  {
  }

  /** Every unit of collateral carries ethPrice * r of debt. */
  lemma DebtIsPriceTimesRatioTimesCollateral(ethValue: real, percent: real, ethPrice: real)
    ensures Debt(ethValue, percent, ethPrice)
         == ethPrice * Ratio(percent) * Collateral(ethValue, percent)
  {
    BorrowedIsRatioTimesCollateralShare(percent);
  }

  /** A zero collateral arises only for a zero deposit or a ratio of -1,
      and then the debt is zero too: the liquidation quotient is 0/0. */
  lemma DebtVanishesWithCollateral(ethValue: real, percent: real, ethPrice: real)
    ensures Collateral(ethValue, percent) == 0.0 <==> ethValue == 0.0 || percent == -100.0
    ensures Collateral(ethValue, percent) == 0.0 ==> Debt(ethValue, percent, ethPrice) == 0.0
  {
    var r := Ratio(percent);
    var share := 1.0 + Relent(percent);
    assert share == (1.0 + r) * (1.0 + r * r);
    if percent != -100.0 {
      NonzeroProduct(1.0 + r, 1.0 + r * r);
      if ethValue != 0.0 {
        NonzeroProduct(ethValue, share);
      }
    }
    DebtIsPriceTimesRatioTimesCollateral(ethValue, percent, ethPrice);
  }

  /** The return is the fourth round's borrowing alone: ethValue * ethPrice * r^4. */
  lemma ReturnIsLastRound(ethValue: real, percent: real, ethPrice: real)
    ensures Project(ethValue, percent, ethPrice).returnValue
         == ethValue * ethPrice * (Ratio(percent) * Ratio(percent) * Ratio(percent) * Ratio(percent))
  {
    var r := Ratio(percent);
    assert Collateral(ethValue, percent) - ethValue == ethValue * Relent(percent);
    assert Borrowed(percent) - Relent(percent) == r * r * r * r;
  }

  lemma DivideByFactor(x: real, c: real)
    requires c != 0.0
    ensures x * c / c == x
  {
  }

  /** The liquidation price is 3/2 * ethPrice * r whenever the collateral
      is nonzero, and 0 otherwise. */
  lemma LiquidationPriceClosedForm(ethValue: real, percent: real, ethPrice: real)
    ensures var p := Project(ethValue, percent, ethPrice);
      p.liquidationPrice == if p.collateral == 0.0 then 0.0 else 1.5 * ethPrice * Ratio(percent)
  {
    var c := Collateral(ethValue, percent);
    if c != 0.0 {
      DebtIsPriceTimesRatioTimesCollateral(ethValue, percent, ethPrice);
      DivideByFactor(ethPrice * Ratio(percent), c);
    }
  }

  /** For a ratio in [0, 1) the re-lent share lies in [0, 3). */
  lemma RelentBounds(percent: real)
    requires 0.0 <= percent
    ensures 0.0 <= Relent(percent)
    ensures percent < 100.0 ==> Relent(percent) < 3.0
  {
    var r := Ratio(percent);
    var r2 := r * r;
    var r3 := r2 * r;
    assert Relent(percent) == r + r2 + r3;
    NonnegativeProduct(r, r);
    NonnegativeProduct(r2, r);
    if percent < 100.0 {
      assert r < 1.0;
      NonnegativeProduct(r, 1.0 - r);
      Distribute(r, 1.0, r);
      assert r * 1.0 == r;
      assert r2 <= r;
      NonnegativeProduct(r2, 1.0 - r);
      Distribute(r2, 1.0, r);
      assert r2 * 1.0 == r2;
      assert r3 <= r2;
    }
  }

  lemma ScaleBelow(a: real, s: real, bound: real)
    requires a > 0.0 && s < bound
    ensures a * s < a * bound
  {
    PositiveProduct(a, bound - s);
    Distribute(a, bound, s);
  }

  /** For a non-negative deposit and ratio, the loop only adds on top of
      the deposit; below 100 percent it adds less than three more deposits. */
  lemma CollateralCoversDeposit(ethValue: real, percent: real)
    requires ethValue >= 0.0 && percent >= 0.0
    ensures Collateral(ethValue, percent) >= ethValue
    ensures ethValue > 0.0 && percent < 100.0 ==> Collateral(ethValue, percent) < 4.0 * ethValue
  {
    var s := Relent(percent);
    RelentBounds(percent);
    NonnegativeProduct(ethValue, s);
    Distribute(ethValue, 1.0, s);
    var c := Collateral(ethValue, percent);
    assert c == ethValue + ethValue * s;
    if ethValue > 0.0 && percent < 100.0 {
      ScaleBelow(ethValue, s, 3.0);
      assert c < 4.0 * ethValue;
    }
  }

  lemma CollateralizationRateExamples()
    ensures CollateralizationRate(50.0) == Finite(200)
    ensures CollateralizationRate(60.0) == Finite(167)
    ensures CollateralizationRate(10.0) == Finite(1000)
    ensures CollateralizationRate(0.0) == Infinite
  {
    assert 100.0 / Ratio(50.0) == 200.0;
    assert 100.0 / Ratio(60.0) == 500.0 / 3.0;
    assert 100.0 / Ratio(10.0) == 1000.0;
  }

  /** Over the accepted percents the rate lies between 167 and 1000. */
  lemma CollateralizationRateBounds(percent: real)
    requires 10.0 <= percent <= 60.0
    ensures CollateralizationRate(percent).Finite?
    ensures 167 <= CollateralizationRate(percent).percent <= 1000
  {
    var q := 100.0 / Ratio(percent);
    assert q * percent == 10000.0;
    assert q > 0.0;
    assert q * percent >= q * 10.0;
    assert q * percent <= q * 60.0;
  }

  /** 0.1 ETH at 50 percent and a price of 150 DAI. */
  lemma ProjectionAtDefaults()
    ensures Project(0.1, 50.0, 150.0)
         == Projection(0.1875, 14.0625, 112.5, 0.9375, Finite(200))
  {
    CollateralizationRateExamples();
    assert Collateral(0.1, 50.0) == 0.1875;
    assert Debt(0.1, 50.0, 150.0) == 14.0625;
    assert 14.0625 / 0.1875 == 75.0;
  }
}
