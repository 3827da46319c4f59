/** The App component's state: the two inputs, the market and account
    reads, and the five projected values that every input change
    recomputes. */
module AppComponent {
  import opened Js
  import opened Calculator
  import Bounds

  class App {
    var initialized: bool
    var account: string
    var ethBalance: real
    var ethPrice: real
    var ethValue: real
    var percent: real
    var collateral: real
    var debt: real
    var liquidationPrice: real
    var returnValue: real
    var collateralizationRate: Rate

    /** The projected values as the state holds them. */
    function Shown(): Projection
      reads this
    {
      Projection(collateral, debt, liquidationPrice, returnValue, collateralizationRate)
    }

    /** The initial state: 0.1 ETH at 50 percent, nothing fetched and
        nothing projected yet. */
    constructor ()
      ensures !initialized && account == "" && ethBalance == 0.0 && ethPrice == 0.0
      ensures ethValue == 0.1 && percent == 50.0
      ensures Shown() == Projection(0.0, 0.0, 0.0, 0.0, Finite(0))
    {
      initialized := false;
      account := "";
      ethBalance := 0.0;
      ethPrice := 0.0;
      ethValue := 0.1;
      percent := 50.0;
      collateral := 0.0;
      debt := 0.0;
      liquidationPrice := 0.0;
      returnValue := 0.0;
      collateralizationRate := Finite(0);
    }

    /** `calculateValues`: replaces the five projected values with the
        projection of the current inputs and leaves everything else. */
    method CalculateValues()
      modifies this
      ensures Shown() == Project(ethValue, percent, ethPrice)
      ensures ethValue == old(ethValue) && percent == old(percent) && ethPrice == old(ethPrice)
      ensures ethBalance == old(ethBalance) && account == old(account)
      ensures initialized == old(initialized)
    {
      var p := Calculator.CalculateValues(ethValue, percent, ethPrice);
      collateral := p.collateral;
      debt := p.debt;
      liquidationPrice := p.liquidationPrice;
      returnValue := p.returnValue;
      collateralizationRate := p.collateralizationRate;
    }

    /** `componentDidMount`: with a provider present, the ETH price read
        from the exchange, a first projection, then initialized; with or
        without one, it ends with `fetchState` on the account list read. */
    method Mount(hasProvider: bool, ethPriceRead: real, accounts: seq<string>, balanceOfFirst: real)
      modifies this
      ensures hasProvider ==>
        initialized && ethPrice == ethPriceRead && Shown() == Project(ethValue, percent, ethPriceRead)
      ensures !hasProvider ==>
        initialized == old(initialized) && ethPrice == old(ethPrice) && Shown() == old(Shown())
      ensures |accounts| > 0 ==> account == accounts[0] && ethBalance == balanceOfFirst
      ensures |accounts| == 0 ==> account == old(account) && ethBalance == old(ethBalance)
      ensures ethValue == old(ethValue) && percent == old(percent)
    {
      if hasProvider {
        ethPrice := ethPriceRead;
        CalculateValues();
        initialized := true;
      }
      FetchState(accounts, balanceOfFirst);
    }

    /** `fetchState`: with at least one account, the first account and
        its balance (`balanceOfFirst`, already in ETH) are stored. */
    method FetchState(accounts: seq<string>, balanceOfFirst: real)
      modifies this
      ensures |accounts| == 0 ==> unchanged(this)
      ensures |accounts| > 0 ==> account == accounts[0] && ethBalance == balanceOfFirst
      ensures ethValue == old(ethValue) && percent == old(percent) && ethPrice == old(ethPrice)
      ensures Shown() == old(Shown()) && initialized == old(initialized)
    {
      if |accounts| > 0 {
        account := accounts[0];
        ethBalance := balanceOfFirst;
      }
    }

    /** `changeEthValue`: a non-number leaves the whole state alone; a
        number replaces the ETH input and recomputes the projection. */
    method ChangeEthValue(value: Input)
      modifies this
      ensures value.NotNumber? ==> unchanged(this)
      ensures value.Number? ==>
        ethValue == value.value && Shown() == Project(value.value, percent, ethPrice)
      ensures percent == old(percent) && ethPrice == old(ethPrice)
      ensures ethBalance == old(ethBalance) && account == old(account)
      ensures initialized == old(initialized)
    {
      if !value.Number? {
        return;
      }
      ethValue := value.value;
      CalculateValues();
    }

    /** `changePercentValue`: as ChangeEthValue, for the percent input. */
    method ChangePercentValue(value: Input)
      modifies this
      ensures value.NotNumber? ==> unchanged(this)
      ensures value.Number? ==>
        percent == value.value && Shown() == Project(ethValue, value.value, ethPrice)
      ensures ethValue == old(ethValue) && ethPrice == old(ethPrice)
      ensures ethBalance == old(ethBalance) && account == old(account)
      ensures initialized == old(initialized)
    {
      if !value.Number? {
        return;
      }
      percent := value.value;
      CalculateValues();
    }

    /** `validate` on the current state: range first, then balance. */
    method Validate() returns (o: Bounds.Outcome)
      ensures o == Bounds.Thrown(Bounds.WrongValueText) <==> !Bounds.InRange(ethValue, percent)
      ensures o == Bounds.Thrown(Bounds.NoEnoughEthText)
          <==> Bounds.InRange(ethValue, percent) && ethBalance < ethValue
      ensures o == Bounds.Passed <==> Bounds.InRange(ethValue, percent) && ethValue <= ethBalance
    {
      o := Bounds.Validate(ethValue, percent, ethBalance);
    }

    /** `leverage` up to the transaction: the transaction is built only
        when `validate` passes, from the shown collateral and debt, paying
        the ETH input from the current account; otherwise the thrown
        message is what the user sees. */
    method Leverage() returns (s: Bounds.Submission)
      ensures s.RiskNewCdp? <==> Bounds.Validate(ethValue, percent, ethBalance) == Bounds.Passed
      ensures s.RiskNewCdp? ==> s == Bounds.RiskNewCdp(collateral, debt, ethValue, account)
      ensures s.Refused? ==> Bounds.Validate(ethValue, percent, ethBalance) == Bounds.Thrown(s.message)
    {
      var o := Validate();
      if o.Thrown? {
        return Bounds.Refused(o.message);
      }
      s := Bounds.RiskNewCdp(collateral, debt, ethValue, account);
    }

    /** The label `render` shows: danger above 50 percent. */
    function IsDanger(): (d: bool)
      reads this
      ensures d <==> percent > 50.0
    {
      Bounds.IsDanger(percent)
    }
  }
}
