/** Responses as the controllers return them, and the validation rules they use. */
module Http {
  import opened Wrappers
  import opened Strings

  /**
   * A controller's response: a JSON body with a success status, a 422 validation failure with one
   * message key per failing field (the first rule that failed), or an error status with its
   * message.
   */
  datatype Response<T> =
    | Ok(status: nat, body: T)
    | Invalid(errors: map<string, string>)
    | Error(status: nat, message: string)

  /** Route-model binding found no row. */
  const NotFound: string := "Not Found"

  /** The `required` rule: the field is present and not blank. */
  predicate Present(v: Option<string>) {
    v.Some? && !IsPhpBlank(v.value)
  }

  /** `required|string|max:n`: the first rule that fails, if any. */
  function RequiredMax(v: Option<string>, n: nat): (e: Option<string>)
    ensures e.None? <==> Present(v) && |v.value| <= n
  {
    if !Present(v) then Some("required")
    else if |v.value| > n then Some("max")
    else None
  }

  /** `required|string`: the first rule that fails, if any. */
  function Required(v: Option<string>): (e: Option<string>)
    ensures e.None? <==> Present(v)
  {
    if !Present(v) then Some("required") else None
  }

  /** `required|string|min:8|confirmed`: the first rule that fails, if any. The confirmation must
      be present and identical. */
  function NewPasswordError(v: Option<string>, confirmation: Option<string>): (e: Option<string>)
    ensures e.None? <==> Present(v) && |v.value| >= 8 && confirmation == v
  {
    if !Present(v) then Some("required")
    else if |v.value| < 8 then Some("min")
    else if confirmation != v then Some("confirmed")
    else None
  }

  /** Record `field`'s failure, if it failed. */
  function AddError(errors: map<string, string>, field: string, e: Option<string>): (r: map<string, string>)
    ensures e.None? ==> r == errors
    ensures e.Some? ==> r == errors[field := e.value]
  {
    if e.Some? then errors[field := e.value] else errors
  }
}
