/** The input guards of utils/validation.ts. `Number(input)` is the host's
    string-to-number conversion; it is passed in as `toNumber`. */
module Validation {
  import opened Wrappers
  import opened Text
  import opened Numbers

  /** The `unknown` argument of `isNonEmptyString`: only strings matter. */
  datatype JsValue = JsString(s: string) | OtherValue

  /** `typeof value === 'string' && value.trim().length > 0` */
  function IsNonEmptyString(value: JsValue): (b: bool)
    ensures b <==> value.JsString? && exists k :: 0 <= k < |value.s| && !IsWhitespace(value.s[k])
  {
    value.JsString? && |Trim(value.s)| > 0
  }

  /** `parsePositiveNumber`: the converted number when it is finite and
      positive, otherwise null. */
  function ParsePositiveNumber(input: string, toNumber: string -> JsNumber): (r: Option<real>)
    ensures r.Some? ==> r.value > 0.0 && toNumber(input) == Finite(r.value)
    ensures r.None? <==> !IsFinite(toNumber(input)) || toNumber(input).value <= 0.0
  {
    var n := toNumber(input);
    if !IsFinite(n) || n.value <= 0.0 then None else Some(n.value)
  }

  /** `parseNonNegativeNumber`: the converted number when it is finite and
      not negative, otherwise null. */
  function ParseNonNegativeNumber(input: string, toNumber: string -> JsNumber): (r: Option<real>)
    ensures r.Some? ==> r.value >= 0.0 && toNumber(input) == Finite(r.value)
    ensures r.None? <==> !IsFinite(toNumber(input)) || toNumber(input).value < 0.0
  {
    var n := toNumber(input);
    if !IsFinite(n) || n.value < 0.0 then None else Some(n.value)
  }

  /** Every input the positive guard accepts, the non-negative guard accepts
      with the same value; the converse fails only at zero. */
  lemma PositiveImpliesNonNegative(input: string, toNumber: string -> JsNumber)
    ensures ParsePositiveNumber(input, toNumber).Some? ==>
              ParseNonNegativeNumber(input, toNumber) == ParsePositiveNumber(input, toNumber)
    ensures ParseNonNegativeNumber(input, toNumber).Some? && ParsePositiveNumber(input, toNumber).None? ==>
              ParseNonNegativeNumber(input, toNumber) == Some(0.0)
  {
  }
}
