/** The form validators of App's own CustomForm: fixed bounds, fixed
    messages, one callback call per validation. */
module AppForm {
  import opened Js
  import Bounds

  const EthLimitText: string := "The Looper has a limit of 0.1 ETH per transaction."
  const RateText: string := "Rate must be between 10 and 60"

  /** Accepts a number in [0.01, 0.1]; the truthiness test adds nothing
      beyond the lower bound, which already excludes 0. */
  function ValidateEthValue(value: Input): (c: Callback)
    ensures c == NoError <==> value.Number? && 0.01 <= value.value <= 0.1
    ensures c != NoError ==> c == Error(Text(EthLimitText))
  {
    if Truthy(value) && value.value >= 0.01 && value.value <= 0.1 then NoError
    else Error(Text(EthLimitText))
  }

  /** Accepts a number in [10, 60]. */
  function ValidatePercent(value: Input): (c: Callback)
    ensures c == NoError <==> value.Number? && 10.0 <= value.value <= 60.0
    ensures c != NoError ==> c == Error(Text(RateText))
  {
    if Truthy(value) && value.value >= 10.0 && value.value <= 60.0 then NoError
    else Error(Text(RateText))
  }

  /** The pre-submit check passes exactly when both form fields are
      accepted and the account holds the amount: the form and `validate`
      enforce the same band. */
  lemma ValidateAgreesWithForm(ethValue: real, percent: real, ethBalance: real)
    ensures Bounds.Validate(ethValue, percent, ethBalance) == Bounds.Passed
        <==> ValidateEthValue(Number(ethValue)) == NoError
             && ValidatePercent(Number(percent)) == NoError
             && ethValue <= ethBalance
  {
  }
}
