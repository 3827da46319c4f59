/** The parameterised validators of the shared Form component. The
    bounds come from the caller; only zero or an absent value is refused
    below them. */
module Form {
  import opened Js
  import AppForm

  /** `value && value <= max`: any nonzero number up to the limit,
      negative numbers included; the limit itself is accepted. */
  function ValidateEthValue(value: Input, maxEthValue: real): (c: Callback)
    ensures c == NoError <==> Truthy(value) && value.value <= maxEthValue
    ensures c != NoError ==> c == Error(EthLimit(maxEthValue))
  {
    if Truthy(value) && value.value <= maxEthValue then NoError
    else Error(EthLimit(maxEthValue))
  }

  /** `value && min <= value <= max`, inclusive at both ends. */
  function ValidatePercentValue(value: Input, minPercentValue: real, maxPercentValue: real): (c: Callback)
    ensures c == NoError
        <==> Truthy(value) && minPercentValue <= value.value <= maxPercentValue
    ensures c != NoError ==> c == Error(RateRange(minPercentValue, maxPercentValue))
  {
    if Truthy(value) && value.value >= minPercentValue && value.value <= maxPercentValue then NoError
    else Error(RateRange(minPercentValue, maxPercentValue))
  }

  /** With the limit at 0.1 the shared validator accepts everything App's
      own validator accepts, and more: it has no lower bound. */
  lemma EthValidatorIsLooserThanApps(v: real)
    ensures AppForm.ValidateEthValue(Number(v)) == NoError ==> ValidateEthValue(Number(v), 0.1) == NoError
    ensures ValidateEthValue(Number(0.005), 0.1) == NoError
    ensures ValidateEthValue(Number(-1.0), 0.1) == NoError
    ensures AppForm.ValidateEthValue(Number(0.005)) != NoError
    ensures ValidateEthValue(Number(0.0), 0.1) != NoError
    ensures ValidateEthValue(NotNumber, 0.1) != NoError
  {
  }

  /** With bounds 10 and 60 the shared percent validator decides exactly
      as App's own: a positive lower bound makes the zero test redundant. */
  lemma PercentValidatorMatchesApps(value: Input)
    ensures (ValidatePercentValue(value, 10.0, 60.0) == NoError)
        == (AppForm.ValidatePercent(value) == NoError)
  {
  }
}
