/** The "Edit Personal Information" modal: its starting values, the rules
    on the names and the phone, and the data its submit hands on. */
module UserProfileModal {
  import opened Wrappers
  import opened Strings
  import opened FormRules

  /** The profile the modal is opened with; the phone may be null or
      missing. */
  datatype InitialData = InitialData(firstName: string, lastName: string, email: string, phone: Option<string>)

  /** The values the inputs hold. */
  datatype FormData = FormData(firstName: string, lastName: string, email: string, phone: string)

  /** What the submit hands to `onSave`: the phone may be null. */
  datatype SubmitData = SubmitData(firstName: string, lastName: string, email: string, phone: Option<string>)

  /** The starting values, used both when the form is created and when it
      is reset on opening: `phone || ''` turns a missing phone into `''`. */
  function DefaultValues(initial: InitialData): (r: FormData)
    ensures r.firstName == initial.firstName && r.lastName == initial.lastName && r.email == initial.email
    ensures r.phone == "" <==> initial.phone.None? || initial.phone == Some("")
    ensures r.phone != "" ==> initial.phone == Some(r.phone)
  {
    FormData(initial.firstName, initial.lastName, initial.email, initial.phone.GetOr(""))
  }

  /** A character of `[0-9()\-\s]`. */
  predicate PhoneChar(c: char)
  {
    IsAsciiDigit(c) || c == '(' || c == ')' || c == '-' || IsJsWhitespace(c)
  }

  predicate PhoneChars(s: string)
  {
    forall i :: 0 <= i < |s| ==> PhoneChar(s[i])
  }

  /** `^\+?[0-9()\-\s]*$`. A `+` is not in the class, so the optional `+`
      is the first character exactly when the value starts with one. */
  predicate PhonePattern(s: string)
  {
    PhoneChars(s) || (|s| >= 1 && s[0] == '+' && PhoneChars(s[1..]))
  }

  /** The messages under the fields: both names are required and a phone,
      when one is given, must match the pattern. The e-mail input is
      disabled and has no rule. */
  function Validate(d: FormData): (r: seq<FieldError>)
    ensures r == [] <==> d.firstName != "" && d.lastName != "" && PhonePattern(d.phone)
    ensures |r| <= 3
  {
    Required("firstName", d.firstName, "First name is required")
    + Required("lastName", d.lastName, "Last name is required")
    + OptionalPattern("phone", d.phone, PhonePattern(d.phone), "Invalid phone number")
  }

  /** The submit: nothing is handed on while a message is shown; otherwise
      the values go to `onSave` with an empty phone sent as null. */
  function OnSubmit(d: FormData): (r: Option<SubmitData>)
    ensures r.Some? <==> Validate(d) == []
    ensures r.Some? ==> r.value.phone == (if d.phone == "" then None else Some(d.phone))
    ensures r.Some? ==> r.value.firstName == d.firstName && r.value.lastName == d.lastName && r.value.email == d.email
  {
    if Validate(d) == [] then
      Some(SubmitData(d.firstName, d.lastName, d.email, if d.phone == "" then None else Some(d.phone)))
    else None
  }

  /** The phone is optional: with an empty phone the form is valid
      exactly when both names are given. */
  lemma EmptyPhoneAccepted(d: FormData)
    ensures Validate(d.(phone := "")) == [] <==> d.firstName != "" && d.lastName != ""
  {
  }

  /** Opening the modal and saving at once hands back the profile it was
      opened with, except that an empty phone comes back as null. */
  lemma SaveUnchanged(initial: InitialData)
    requires initial.firstName != "" && initial.lastName != ""
    requires initial.phone.Some? ==> PhonePattern(initial.phone.value)
    ensures OnSubmit(DefaultValues(initial)) == Some(SubmitData(initial.firstName, initial.lastName, initial.email,
      if initial.phone == Some("") then None else initial.phone))
  {
  }

  /** The pattern asks for no digit at all: a lone `+`, a pair of
      parentheses and a run of spaces all pass. */
  lemma PhoneNeedsNoDigit()
    ensures PhonePattern("+") && PhonePattern("()") && PhonePattern("   ")
  {
    assert PhoneChars("+"[1..]);
  }
}
