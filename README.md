# The Looper: a verified model of the looped-CDP position calculator

The Looper lets a user lock ETH, borrow DAI against it and re-deposit
the proceeds three more times ("looping"), then send the resulting
position to a leverage contract. The part of the application with real
semantics is the calculator that projects that position, and the bounds
that guard it. This project models, in Dafny with exact `real`
arithmetic:

- **Calculator** (`calculator.dfy`): `calculateValues`, with its two
  geometric loops, as a method proved equal to closed forms. Collateral
  is `e·(1+r+r²+r³)`. Debt is `e·p·(r+r²+r³+r⁴)`. The return is
  `debt − (collateral − e)·p`. The collateralization rate is
  `Math.round(100/r)`. The liquidation price is
  `(debt/collateral/2)·3 || 0`. Here `r = percent/100`, `e` is the ETH
  locked and `p` the ETH price. Lemmas derive what these forms mean:
  - the debt is `p·r` times the collateral;
  - the return is the fourth round alone, `e·p·r⁴`;
  - the liquidation price is `1.5·p·r`, or 0 exactly when the
    collateral is 0, which forces the debt to 0 as well;
  - the collateral covers the deposit;
  - bounds and worked examples for the rate.
- **Bounds** (`bounds.dfy`): the pre-submit `validate` shared by App and
  Card (range first, then balance, first failure thrown), the
  `isDanger` label, and what `leverage` submits.
- **Form validators**: App's own fixed-bound validators
  (`app_form.dfy`) and the shared Form component's parameterised ones
  (`form.dfy`). Each validator makes exactly one callback call, either
  with no argument or with a message. Lemmas relate the two families to
  each other and to `validate`.
- **Components**: the App and Card components as classes whose fields
  are the component state (`app.dfy`, `card.dfy`). Change handlers
  ignore non-numbers and otherwise overwrite one input and recompute. The
  constructors install the defaults the code sets (0.1 ETH, 50 percent; src/App.js:119-120, src/components/Card/index.js:34,37,55-56).
  Card derives the per-transaction cap `maxEthValue` from the leverage
  contract's balance.
- **Js** (`js.dfy`): the JavaScript notions the model needs: inputs
  that may not be numbers, truthiness, `Math.round` and
  `Number(x.toFixed(2))`.

External reads are parameters of the methods that store them. These are
the ETH price from the exchange, the leverage contract's balance, and
the account list with its balance.

Three facts about the code that the lemmas pin down:

- `validate` checks the static band `[0.01, 0.1]` × `[10, 60]` and then
  the balance; the dynamic `maxEthValue` plays no part in it. Card
  computes that cap and passes it to the Form as `maxEthValue`, but the
  Form reads its ETH limit from `props.ethValue.max`, so no code applies
  the cap. `FormCapAndValidateDisagree` shows what the Form validator
  would decide if it received the cap: it and `validate` would each
  accept a value the other refuses.
- The cap is rounded to hundredths by `toFixed(2)`, ties away from zero.
  `RoundedCapCanExceedReserve` shows a balance at which the rounded cap
  lets the loop re-lend more than the reserved 90 percent of the
  balance. With the unrounded cap, the reserve always holds
  (`CapCoversTheLoop`).
- At a percent of 0 the collateralization rate is `Math.round(Infinity)`,
  i.e. Infinity. The model keeps it as `Rate.Infinite`.

## Model

| member | source | states |
|---|---|---|
| Js.Round | src/App.js:222 | `Math.round`: the integer n with x − 1/2 < n ≤ x + 1/2, so a half rounds up |
| Js.ToFixed2 | src/components/Card/index.js:106 | `Number(x.toFixed(2))` is a whole number of hundredths within 0.005 of x; a tie rounds away from zero |
| Calculator.CalculateValues | src/App.js:201-231 | the two loops and derived values produce exactly the closed-form projection: collateral e(1+r+r²+r³), debt e·p(r+r²+r³+r⁴), return, rate and liquidation price (src/components/Card/index.js:129-158 is the same code) |
| Calculator.Rounds | src/App.js:208-213 | one loop of `calculateValues`: after the given number of rounds the accumulator holds its start plus the increments start·r, start·r², … |
| Calculator.CollateralLoopClosedForm | src/App.js:207-213 | three re-lending rounds from the deposit accumulate e(1+r+r²+r³) |
| Calculator.DebtLoopClosedForm | src/App.js:214-220 | four borrowing rounds from the price accumulate p(r+r²+r³+r⁴), before scaling by e |
| Calculator.DebtIsPriceTimesRatioTimesCollateral | src/App.js:214-220 | the debt is always p·r times the collateral |
| Calculator.DebtVanishesWithCollateral | src/App.js:223 | the collateral is 0 exactly when e = 0 or percent = −100, and then the debt is 0, so `|| 0` only ever replaces 0/0 |
| Calculator.ReturnIsLastRound | src/App.js:221 | the return `debt − (collateral − e)·p` equals e·p·r⁴ |
| Calculator.LiquidationPriceClosedForm | src/App.js:223 | the liquidation price is 1.5·p·r when the collateral is nonzero and 0 when it is zero |
| Calculator.CollateralCoversDeposit | src/App.js:209-213 | for e ≥ 0 and percent ≥ 0 the collateral is at least e; for e > 0 and percent below 100 it is less than 4e |
| Calculator.CollateralizationRateExamples | src/components/Card/index.js:149 | the rate is 200 at 50 percent, 167 at 60, 1000 at 10, and Infinity at 0 |
| Calculator.CollateralizationRateBounds | src/App.js:222 | for percents in [10, 60] the rate is finite and between 167 and 1000 |
| Calculator.ProjectionAtDefaults | src/App.js:207-223 | 0.1 ETH at 50 percent and price 150 projects collateral 0.1875, debt 14.0625, liquidation 112.5, return 0.9375, rate 200 |
| Bounds.Validate | src/App.js:272-281 | throws the range error iff ETH is outside [0.01, 0.1] or percent outside [10, 60] (bounds inclusive); otherwise throws the balance error iff the balance is below the ETH; else passes |
| Bounds.DangerThreshold | src/App.js:302 | danger iff percent > 50; 50 is safe and 60 is dangerous |
| Bounds.DangerIffLiquidationAboveThreeQuartersOfPrice | src/App.js:302 | for e > 0 and p > 0, at any percent: danger iff the projected liquidation price exceeds 0.75·p |
| AppForm.ValidateEthValue | src/App.js:44-50 | accepts iff the value is a number in [0.01, 0.1]; every rejection carries the fixed 0.1 ETH limit message |
| AppForm.ValidatePercent | src/App.js:51-57 | accepts iff the value is a number in [10, 60]; every rejection carries the fixed rate message |
| AppForm.ValidateAgreesWithForm | src/App.js:44-57 | `validate` passes iff both App form validators accept and the balance covers the ETH |
| Form.ValidateEthValue | src/components/Form/index.js:11-18 | accepts iff the value is a nonzero number ≤ max (max itself accepted); a rejection carries the max in its message |
| Form.ValidatePercentValue | src/components/Form/index.js:19-29 | accepts iff the value is a nonzero number in [min, max], both ends inclusive; a rejection carries min and max |
| Form.EthValidatorIsLooserThanApps | src/components/Form/index.js:13 | with max 0.1 it accepts all App accepts, and also 0.005 and −1: no lower bound other than rejecting 0 and non-numbers |
| Form.PercentValidatorMatchesApps | src/components/Form/index.js:24 | with bounds 10 and 60 it decides exactly as App's percent validator |
| AppComponent.App.constructor | src/App.js:114-128 | the initial state is 0.1 ETH, 50 percent, zero price, zero balance and an all-zero projection, not initialized |
| AppComponent.App.CalculateValues | src/App.js:224-230 | replaces the five projected fields with the projection of the current inputs and changes nothing else |
| AppComponent.App.Mount | src/App.js:145-158 | with a provider, stores the price, projects and sets initialized; without one, leaves price, projection and flag alone; on both paths it then runs `fetchState`, storing the first account and its balance when there is one |
| AppComponent.App.FetchState | src/App.js:188-199 | with at least one account, stores the first account and its balance; with none, leaves the state unchanged |
| AppComponent.App.ChangeEthValue | src/App.js:233-237 | a non-number leaves the whole state unchanged; a number overwrites only the ETH input and the projection becomes that of the new inputs |
| AppComponent.App.ChangePercentValue | src/App.js:239-243 | the same for the percent input |
| AppComponent.App.Validate | src/App.js:272-281 | the range check comes first, then the balance check, on the current state |
| AppComponent.App.Leverage | src/App.js:253-263 | builds `riskNewCDP(collateral, debt)` paying the ETH input from the account iff `validate` passes; otherwise returns the thrown message |
| AppComponent.App.IsDanger | src/App.js:302 | danger iff the percent input is above 50 |
| CardComponent.MaxEthValue | src/components/Card/index.js:104-106 | the cap is a whole number of hundredths within 0.005 of 0.9·B/(r+r²+r³) at the maximum ratio, a tie going away from zero (up for a non-negative quotient) |
| CardComponent.SixtyPercentRelends | src/components/Card/index.js:105-106 | at 60 percent, r+r²+r³ = 1.176, so the cap is round2(0.9·B/1.176) |
| CardComponent.RelentBelowSixtyPercent | src/components/Card/index.js:105 | for percents in [0, 60] the re-lent share lies between 0 and its value at 60 |
| CardComponent.CapCoversTheLoop | src/components/Card/index.js:104-106 | at any percent in [0, 60], a deposit up to the unrounded cap re-lends at most 0.9·B |
| CardComponent.RoundedCapCanExceedReserve | src/components/Card/index.js:106 | for B = 0.0196 the rounded cap is 0.02, and its loop at 60 percent re-lends more than 0.9·B |
| CardComponent.Card.constructor | src/components/Card/index.js:29-57 | ethValue = initialEthValue = 0.1 and percentValue = initialPercentValue = 50; maxPercentValue is 60 and everything else starts at zero |
| CardComponent.Card.CalculateValues | src/components/Card/index.js:129-158 | replaces the projected fields with the projection of ethValue, percentValue and the price; nothing else changes |
| CardComponent.Card.InitContracts | src/components/Card/index.js:104-113 | stores the read ETH price and the cap derived from the contract balance |
| CardComponent.Card.Mount | src/components/Card/index.js:67-80 | with a provider, stores the price and the cap, projects and sets initialized; without one, leaves those alone; on both paths it then runs `fetchState`, storing the first account and its balance when there is one |
| CardComponent.Card.FetchState | src/components/Card/index.js:116-127 | with at least one account, stores the first account and its balance; otherwise leaves the state unchanged |
| CardComponent.Card.ChangeValue | src/components/Card/index.js:160-164 | a non-number leaves the state unchanged; a number overwrites only the entry named and the projection follows |
| CardComponent.Card.Validate | src/components/Card/index.js:193-202 | range (static 0.1 ceiling, not maxEthValue), then balance, on the current state |
| CardComponent.Card.Leverage | src/components/Card/index.js:174-184 | builds the transaction iff `validate` passes, from the shown collateral and debt; otherwise returns the thrown message |
| CardComponent.Card.IsDanger | src/components/Card/index.js:218 | danger iff percentValue is above 50 |
| CardComponent.FormCapAndValidateDisagree | src/components/Card/index.js:193-202 | the Form validator, if given the cap, and `validate`'s static ceiling would each accept what the other refuses |

## Left out

- IEEE-754 floating point: rounding error, NaN and Infinity are not modelled. Numbers are exact reals. The one NaN case of the liquidation price (0/0) is the explicit zero-collateral branch.
- The exchange, leverage-contract and account reads (`getExchange`, `getTokenToEthOutputPrice`, `getBalance`, `getAccounts`) are I/O. Their results are method parameters, so a read that fails is not modelled: in the source a rejected `initContracts` ends `componentDidMount` before the projection, `initialized` and `fetchState`, and the `Mount` methods cover only reads that succeed. `toWei`/`fromWei` unit conversion is not modelled.
- The `accountsChanged` / `networkChanged` listeners are not modelled; `FetchState` models the handler they run. React's asynchronous `setState` is modelled as an immediate assignment.
- AppComponent.App.Leverage: stops at the transaction `validate` allows. The `sending` flag, the actual `send`, and the success and error toasts are not modelled.
- CardComponent.Card.Leverage: the same as App's.
- The third argument of `riskNewCDP`, the constant `true`, is not a field of `Submission`: it never varies.
- Rendering is not modelled: ListOfValues, the antd layout, `toFixed` display formatting, the input `formatter`/`parser`, and the button's `disabled` flag derived from form errors.
- The Form's prop wiring is not modelled. Card passes `maxEthValue`, while Form reads `props.ethValue.max` and `props.percentValue`. The Form validators take their bounds as arguments instead.
- Form validators that receive a numeric string (JavaScript would coerce it) are not modelled; any non-number is treated as rejected.
- App's `getEthValue` / `getPercent` (src/App.js:283-289) are not modelled: nothing calls them.
- CardComponent.MaxEthValue: requires r + r² + r³ ≠ 0, because the source only evaluates it at the fixed maximum of 60 percent.
- Message texts that interpolate numbers keep the numbers (`EthLimit(max)`, `RateRange(min, max)`), not the rendered string.
