/** The Card component: the same calculator as App, with named initial
    values, a per-transaction ETH cap derived from the leverage contract's
    balance, and one change handler for both inputs. */
module CardComponent {
  import opened Js
  import opened Calculator
  import Bounds
  import Form

  /** The state entries `changeValue(name)` can overwrite. */
  datatype Key = EthValue | PercentValue

  /** The cap a single position may lock: 90 percent of the contract's
      balance, spread over the three re-lending rounds at the largest
      allowed percent, rounded to hundredths. */
  function MaxEthValue(contractEthBalance: real, maxPercentValue: real): (m: real)
    requires Relent(maxPercentValue) != 0.0
    ensures IsCents(m)
    ensures var exact := contractEthBalance * 0.9 / Relent(maxPercentValue);
      exact - 0.005 <= m <= exact + 0.005
    ensures var exact := contractEthBalance * 0.9 / Relent(maxPercentValue);
      exact >= 0.0 ==> exact - 0.005 < m
    ensures var exact := contractEthBalance * 0.9 / Relent(maxPercentValue);
      exact <= 0.0 ==> m < exact + 0.005
  {
    ToFixed2(contractEthBalance * 0.9 / Relent(maxPercentValue))
  }

  /** At the configured 60 percent the three rounds re-lend 1.176 deposits. */
  lemma SixtyPercentRelends()
    ensures Relent(60.0) == 1.176
    ensures forall b :: MaxEthValue(b, 60.0) == ToFixed2(b * 0.9 / 1.176)
  {
  }

  /** Between 0 and 60 percent the re-lent share is non-negative and
      at most its value at 60 percent. */
  lemma RelentBelowSixtyPercent(percent: real)
    requires 0.0 <= percent <= 60.0
    ensures 0.0 <= Relent(percent) <= Relent(60.0)
  {
    var r := Ratio(percent);
    NonnegativeProduct(r, r);
    NonnegativeProduct(r * r, r);
    NonnegativeProduct(0.6 - r, 0.6 + r);
    assert r * r <= 0.36;
    NonnegativeProduct(0.36 - r * r, r);
    NonnegativeProduct(0.6 - r, 0.36);
    assert r * r * r <= 0.36 * r <= 0.216;
  }

  /** The reason for the cap: at any accepted percent, locking at most the
      unrounded cap re-lends at most the 90 percent of the contract's
      balance that the formula reserves. */
  lemma CapCoversTheLoop(contractEthBalance: real, ethValue: real, percent: real)
    requires contractEthBalance >= 0.0
    requires 0.0 <= ethValue <= contractEthBalance * 0.9 / Relent(60.0)
    requires 0.0 <= percent <= 60.0
    ensures Collateral(ethValue, percent) - ethValue <= 0.9 * contractEthBalance
  {
    RelentBelowSixtyPercent(percent);
    SixtyPercentRelends();
    assert Collateral(ethValue, percent) - ethValue == ethValue * Relent(percent);
    NonnegativeProduct(ethValue, Relent(60.0) - Relent(percent));
    assert ethValue * Relent(60.0) <= contractEthBalance * 0.9;
  }

  /** Rounding to hundredths can lift the cap above the reserve: a balance
      of 0.0196 ETH gives an exact cap of 0.015 and a rounded cap of 0.02,
      whose loop at 60 percent re-lends 0.02352 ETH against 0.01764 reserved. */
  lemma RoundedCapCanExceedReserve()
    ensures MaxEthValue(0.0196, 60.0) == 0.02
    ensures Collateral(0.02, 60.0) - 0.02 > 0.9 * 0.0196
  {
    SixtyPercentRelends();
    assert 0.0196 * 0.9 / 1.176 == 0.015;
    assert (0.015 * 100.0 + 0.5).Floor == 2;
  }

  class Card {
    var initialized: bool
    var account: string
    var ethBalance: real
    var ethPrice: real
    const initialEthValue: real := 0.1
    var ethValue: real
    var maxEthValue: real
    const initialPercentValue: real := 50.0
    var percentValue: real
    const maxPercentValue: real := 60.0
    var collateral: real
    var debt: real
    var liquidationPrice: real
    var returnValue: real
    var collateralizationRate: Rate

    function Shown(): Projection
      reads this
    {
      Projection(collateral, debt, liquidationPrice, returnValue, collateralizationRate)
    }

    /** The state initializer plus the constructor's two assignments:
        the inputs start at their named initial values. */
    constructor ()
      ensures ethValue == initialEthValue == 0.1
      ensures percentValue == initialPercentValue == 50.0
      ensures maxPercentValue == 60.0 && maxEthValue == 0.0
      ensures !initialized && account == "" && ethBalance == 0.0 && ethPrice == 0.0
      ensures Shown() == Projection(0.0, 0.0, 0.0, 0.0, Finite(0))
    {
      initialized := false;
      account := "";
      ethBalance := 0.0;
      ethPrice := 0.0;
      ethValue := 0.0;
      maxEthValue := 0.0;
      percentValue := 0.0;
      collateral := 0.0;
      debt := 0.0;
      liquidationPrice := 0.0;
      returnValue := 0.0;
      collateralizationRate := Finite(0);
      new;
      ethValue := initialEthValue;
      percentValue := initialPercentValue;
    }

    /** `calculateValues`, as in App, over `percentValue`. */
    method CalculateValues()
      modifies this
      ensures Shown() == Project(ethValue, percentValue, ethPrice)
      ensures ethValue == old(ethValue) && percentValue == old(percentValue)
      ensures ethPrice == old(ethPrice) && maxEthValue == old(maxEthValue)
      ensures ethBalance == old(ethBalance) && account == old(account)
      ensures initialized == old(initialized)
    {
      var p := Calculator.CalculateValues(ethValue, percentValue, ethPrice);
      collateral := p.collateral;
      debt := p.debt;
      liquidationPrice := p.liquidationPrice;
      returnValue := p.returnValue;
      collateralizationRate := p.collateralizationRate;
    }

    /** What `initContracts` stores: the ETH price read from the exchange
        and the cap derived from the leverage contract's ETH balance. */
    method InitContracts(ethPriceRead: real, contractEthBalance: real)
      modifies this
      ensures ethPrice == ethPriceRead
      ensures maxEthValue == MaxEthValue(contractEthBalance, maxPercentValue)
      ensures ethValue == old(ethValue) && percentValue == old(percentValue)
      ensures Shown() == old(Shown()) && initialized == old(initialized)
      ensures ethBalance == old(ethBalance) && account == old(account)
    {
      SixtyPercentRelends();
      ethPrice := ethPriceRead;
      maxEthValue := MaxEthValue(contractEthBalance, maxPercentValue);
    }

    /** `componentDidMount`: with a provider, contracts read, a first
        projection, then initialized; with or without one, it ends with
        `fetchState` on the account list read. */
    method Mount(hasProvider: bool, ethPriceRead: real, contractEthBalance: real,
                 accounts: seq<string>, balanceOfFirst: real)
      modifies this
      ensures hasProvider ==>
        initialized && ethPrice == ethPriceRead
        && maxEthValue == MaxEthValue(contractEthBalance, maxPercentValue)
        && Shown() == Project(ethValue, percentValue, ethPriceRead)
      ensures !hasProvider ==>
        initialized == old(initialized) && ethPrice == old(ethPrice)
        && maxEthValue == old(maxEthValue) && Shown() == old(Shown())
      ensures |accounts| > 0 ==> account == accounts[0] && ethBalance == balanceOfFirst
      ensures |accounts| == 0 ==> account == old(account) && ethBalance == old(ethBalance)
      ensures ethValue == old(ethValue) && percentValue == old(percentValue)
    {
      if hasProvider {
        InitContracts(ethPriceRead, contractEthBalance);
        CalculateValues();
        initialized := true;
      }
      FetchState(accounts, balanceOfFirst);
    }

    /** `fetchState`: with at least one account, the first account and
        its balance (`balanceOfFirst`, already in ETH) are stored. */
    method FetchState(accounts: seq<string>, balanceOfFirst: real)
      modifies this
      ensures |accounts| == 0 ==> unchanged(this)
      ensures |accounts| > 0 ==> account == accounts[0] && ethBalance == balanceOfFirst
      ensures ethValue == old(ethValue) && percentValue == old(percentValue)
      ensures ethPrice == old(ethPrice) && maxEthValue == old(maxEthValue)
      ensures Shown() == old(Shown()) && initialized == old(initialized)
    {
      if |accounts| > 0 {
        account := accounts[0];
        ethBalance := balanceOfFirst;
      }
    }

    /** `changeValue(name)(value)`: a non-number leaves the whole state
        alone; a number overwrites the entry `name` only and recomputes. */
    method ChangeValue(name: Key, value: Input)
      modifies this
      ensures value.NotNumber? ==> unchanged(this)
      ensures value.Number? ==>
        ethValue == (if name == EthValue then value.value else old(ethValue))
        && percentValue == (if name == PercentValue then value.value else old(percentValue))
        && Shown() == Project(ethValue, percentValue, ethPrice)
      ensures ethPrice == old(ethPrice) && maxEthValue == old(maxEthValue)
      ensures ethBalance == old(ethBalance) && account == old(account)
      ensures initialized == old(initialized)
    {
      if !value.Number? {
        return;
      }
      match name {
        case EthValue => ethValue := value.value;
        case PercentValue => percentValue := value.value;
      }
      CalculateValues();
    }

    /** `validate`: the static band, then the balance; the derived cap
        `maxEthValue` plays no part. */
    method Validate() returns (o: Bounds.Outcome)
      ensures o == Bounds.Thrown(Bounds.WrongValueText) <==> !Bounds.InRange(ethValue, percentValue)
      ensures o == Bounds.Thrown(Bounds.NoEnoughEthText)
          <==> Bounds.InRange(ethValue, percentValue) && ethBalance < ethValue
      ensures o == Bounds.Passed <==> Bounds.InRange(ethValue, percentValue) && ethValue <= ethBalance
    {
      o := Bounds.Validate(ethValue, percentValue, ethBalance);
    }

    /** `leverage` up to the transaction, as in App. */
    method Leverage() returns (s: Bounds.Submission)
      ensures s.RiskNewCdp? <==> Bounds.Validate(ethValue, percentValue, ethBalance) == Bounds.Passed
      ensures s.RiskNewCdp? ==> s == Bounds.RiskNewCdp(collateral, debt, ethValue, account)
      ensures s.Refused? ==> Bounds.Validate(ethValue, percentValue, ethBalance) == Bounds.Thrown(s.message)
    {
      var o := Validate();
      if o.Thrown? {
        return Bounds.Refused(o.message);
      }
      s := Bounds.RiskNewCdp(collateral, debt, ethValue, account);
    }

    /** The label `render` shows: danger above 50 percent. */
    function IsDanger(): (d: bool)
      reads this
      ensures d <==> percentValue > 50.0
    {
      Bounds.IsDanger(percentValue)
    }
  }

  /** The Form validator, were it given Card's cap, and `validate`'s
      static ceiling would disagree either way: with a cap of 0.05 the
      form refuses 0.08 ETH that `validate` lets through, and with a cap
      of 5 the form accepts 0.5 ETH that `validate` refuses. */
  lemma FormCapAndValidateDisagree()
    ensures Form.ValidateEthValue(Number(0.08), 0.05) != NoError
    ensures Bounds.Validate(0.08, 50.0, 1.0) == Bounds.Passed
    ensures Form.ValidateEthValue(Number(0.5), 5.0) == NoError
    ensures Bounds.Validate(0.5, 50.0, 1.0) == Bounds.Thrown(Bounds.WrongValueText)
  {
  }
}
