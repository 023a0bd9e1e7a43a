/** The rules react-hook-form applies to one registered field, in its own
    order: `required` first, then `minLength`, then `pattern`. The first
    rule that fails gives the field its only message; `minLength` and
    `pattern` are not applied to an empty value. */
module FormRules {
  datatype FieldError = FieldError(field: string, message: string)

  /** `required` alone. */
  function Required(field: string, value: string, message: string): (r: seq<FieldError>)
    ensures r == [] <==> value != ""
    ensures r != [] ==> r == [FieldError(field, message)]
  {
    if value == "" then [FieldError(field, message)] else []
  }

  /** `required` and `minLength: min`. */
  function RequiredMinLength(field: string, value: string, min: nat, requiredMessage: string, minMessage: string): (r: seq<FieldError>)
    ensures r == [] <==> value != "" && |value| >= min
    ensures value == "" ==> r == [FieldError(field, requiredMessage)]
    ensures value != "" && |value| < min ==> r == [FieldError(field, minMessage)]
  {
    if value == "" then [FieldError(field, requiredMessage)]
    else if |value| < min then [FieldError(field, minMessage)]
    else []
  }

  /** `required` and a `pattern` whose verdict on the value is `matches`. */
  function RequiredPattern(field: string, value: string, matches: bool, requiredMessage: string, patternMessage: string): (r: seq<FieldError>)
    ensures r == [] <==> value != "" && matches
    ensures value == "" ==> r == [FieldError(field, requiredMessage)]
    ensures value != "" && !matches ==> r == [FieldError(field, patternMessage)]
  {
    if value == "" then [FieldError(field, requiredMessage)]
    else if !matches then [FieldError(field, patternMessage)]
    else []
  }

  /** A `pattern` on an optional field: an empty value is never checked. */
  function OptionalPattern(field: string, value: string, matches: bool, patternMessage: string): (r: seq<FieldError>)
    ensures r == [] <==> value == "" || matches
    ensures r != [] ==> r == [FieldError(field, patternMessage)]
  {
    if value != "" && !matches then [FieldError(field, patternMessage)] else []
  }
}
