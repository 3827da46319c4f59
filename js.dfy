/** Values as the JavaScript handlers receive them, the single-call
    validator callback, and the two numeric roundings the calculator uses.
    JavaScript numbers are modelled as exact reals. */
module Js {

  /** What an input widget hands to a change handler or a validator:
      a number, or anything that is not one (undefined, null, text). */
  datatype Input = NotNumber | Number(value: real)

  /** JavaScript truthiness of an input: a number other than zero. */
  predicate Truthy(v: Input) {
    v.Number? && v.value != 0.0
  }

  /** The text a form validator passes to its callback when it rejects.
      The interpolated messages keep their numbers rather than the
      rendered string. */
  datatype Message =
    | Text(text: string)
    | EthLimit(max: real)
    | RateRange(min: real, max: real)

  /** The one call a form validator makes: `callback()` when the value
      is accepted, `callback(message)` when it is rejected. */
  datatype Callback = NoError | Error(message: Message)

  /** `Math.round`: the nearest integer, halves rounded toward +infinity. */
  function Round(x: real): (n: int)
    ensures x - 0.5 < n as real <= x + 0.5
  {
    (x + 0.5).Floor
  }

  /** A real that is a whole number of hundredths. */
  predicate IsCents(y: real) {
    (y * 100.0).Floor as real == y * 100.0
  }

  /** Rounding of a non-negative real to hundredths, halves upward. */
  function HalfUpCents(x: real): (y: real)
    ensures IsCents(y)
    ensures x - 0.005 < y <= x + 0.005
  {
    var n := (x * 100.0 + 0.5).Floor;
    assert n as real <= x * 100.0 + 0.5 < n as real + 1.0;
    assert (n as real / 100.0) * 100.0 == n as real;
    n as real / 100.0
  }

  lemma NegatedCents(h: real)
    requires IsCents(h)
    ensures IsCents(-h)
  {
    var k := (h * 100.0).Floor;
    assert -h * 100.0 == (-k) as real;
  }

  /** `Number(x.toFixed(2))`: the nearest multiple of 0.01, a tie going
      away from zero (toFixed rounds the magnitude and keeps the sign). */
  function ToFixed2(x: real): (y: real)
    ensures IsCents(y)
    ensures x - 0.005 <= y <= x + 0.005
    ensures x >= 0.0 ==> x - 0.005 < y
    ensures x <= 0.0 ==> y < x + 0.005
  {
    if x < 0.0 then
      var h := HalfUpCents(-x);
      NegatedCents(h);
      -h
    else
      HalfUpCents(x)
  }
}
