/** The "Personal Information" onboarding step: the rules on the names and
    the phone, the user it asks the backend to create, and what happens
    once the user exists. */
module PersonalStep {
  import opened Wrappers
  import opened Strings
  import opened FormRules
  import UserProfileModal
  import OnboardingStore

  /** The values the inputs hold; the e-mail comes from the user store and
      its input is disabled. */
  datatype FormData = FormData(firstName: string, lastName: string, email: string, phone: string)

  /** `^[+]?[1-9][\d]{0,15}$`: an optional `+`, then one to sixteen digits
      of which the first is not 0. `[1-9]` cannot match a `+`, so the
      optional `+` is taken exactly when the value starts with one. */
  predicate PhonePattern(s: string)
  {
    var digits := if |s| >= 1 && s[0] == '+' then s[1..] else s;
    && 1 <= |digits| <= 16
    && '1' <= digits[0] <= '9'
    && forall i :: 0 <= i < |digits| ==> IsAsciiDigit(digits[i])
  }

  /** The messages under the fields: both names must have at least two
      characters, and the phone is required and must match the pattern. */
  function Validate(d: FormData): (r: seq<FieldError>)
    ensures r == [] <==> |d.firstName| >= 2 && |d.lastName| >= 2 && PhonePattern(d.phone)
    ensures |r| <= 3
  {
    RequiredMinLength("firstName", d.firstName, 2, "First name is required", "First name must be at least 2 characters")
    + RequiredMinLength("lastName", d.lastName, 2, "Last name is required", "Last name must be at least 2 characters")
    + RequiredPattern("phone", d.phone, PhonePattern(d.phone), "Phone number is required", "Please enter a valid phone number")
  }

  /** The arguments of the `createUser` call. */
  datatype CreateUserRequest = CreateUserRequest(firstName: string, lastName: string, email: string, phone: string)

  /** The submit: the user is created with the four values as they are,
      and only when no message is shown. */
  function HandleSubmit(d: FormData): (r: Option<CreateUserRequest>)
    ensures r.Some? <==> Validate(d) == []
    ensures r.Some? ==> r.value == CreateUserRequest(d.firstName, d.lastName, d.email, d.phone)
  {
    if Validate(d) == [] then Some(CreateUserRequest(d.firstName, d.lastName, d.email, d.phone)) else None
  }

  /** The user the backend answers with. */
  datatype CreatedUser = CreatedUser(firstName: string, lastName: string, email: string)

  /** The user store's state. */
  datatype UserState = UserState(firstName: string, lastName: string, email: string, role: string)

  /** Once the user exists: the store takes the answer's names and e-mail
      with an empty role (the store's setter has four parameters, so the
      two further empty ids passed to it are dropped), and the layout is
      asked for the next step. */
  function OnCreateSuccess(created: CreatedUser): (r: (UserState, OnboardingStore.Move))
    ensures r.0.firstName == created.firstName && r.0.lastName == created.lastName && r.0.email == created.email
    ensures r.0.role == ""
    ensures r.1 == OnboardingStore.Forward
  {
    (UserState(created.firstName, created.lastName, created.email, ""), OnboardingStore.Forward)
  }

  /** A leading 0, a space, a dash and more than sixteen digits are each
      enough to reject a phone number. */
  lemma PhoneRejections(s: string)
    ensures |s| >= 1 && s[0] == '0' ==> !PhonePattern(s)
    ensures |s| >= 2 && s[0] == '+' && s[1] == '0' ==> !PhonePattern(s)
    ensures ' ' in s || '-' in s ==> !PhonePattern(s)
    ensures PhonePattern(s) ==> |s| <= 17 && (|s| == 17 ==> s[0] == '+')
  {
    if PhonePattern(s) {
      PhoneCharacters(s);
    }
  }

  /** An accepted phone number is a `+` at most in front and digits
      everywhere else. */
  lemma PhoneCharacters(s: string)
    requires PhonePattern(s)
    ensures forall k :: 0 <= k < |s| ==> IsAsciiDigit(s[k]) || (k == 0 && s[k] == '+')
  {
    forall k | 0 <= k < |s| && s[0] == '+' && k > 0
      ensures IsAsciiDigit(s[k])
    {
      assert s[1..][k - 1] == s[k];
    }
  }

  /** Every phone number the onboarding step accepts is also accepted by
      the modal that edits it later. */
  lemma ModalAcceptsOnboardingPhone(s: string)
    requires PhonePattern(s)
    ensures UserProfileModal.PhonePattern(s)
  {
  }

  /** The modal is the more lenient of the two: it takes the empty phone
      and numbers written with spaces, dashes or parentheses, which the
      onboarding step rejects. */
  lemma ModalIsMoreLenient()
    ensures UserProfileModal.PhonePattern("") && !PhonePattern("")
    ensures UserProfileModal.PhonePattern("+1 (555) 010-0000") && !PhonePattern("+1 (555) 010-0000")
  {
    PhoneRejections("+1 (555) 010-0000");
  }
}
