/** The sign-up form of `pages/Signup.jsx`: its validation chain, the field update
    of `handleChange` and the gating of `handleSubmit`. */
module Signup {
  import opened Wrappers
  import opened JsText
  import opened Patterns

  datatype FormData = FormData(name: string, email: string, password: string, confirmPassword: string)

  /** The `name` attribute of the input that changed. */
  datatype Field = Name | Email | Password | ConfirmPassword

  function Get(f: FormData, field: Field): string {
    match field
    case Name => f.name
    case Email => f.email
    case Password => f.password
    case ConfirmPassword => f.confirmPassword
  }

  /** `{ ...formData, [field]: value }`: only the named field takes the new value. */
  function WithField(f: FormData, field: Field, value: string): (g: FormData)
    ensures Get(g, field) == value
    ensures forall other :: other != field ==> Get(g, other) == Get(f, other)
  {
    match field
    case Name => f.(name := value)
    case Email => f.(email := value)
    case Password => f.(password := value)
    case ConfirmPassword => f.(confirmPassword := value)
  }

  const FillAllFields := "Please fill in all fields"
  const NameTooShort := "Name must be at least 2 characters long"
  const InvalidEmail := "Please enter a valid email address"
  const PasswordTooShort := "Password must be at least 6 characters long"
  const PasswordsDiffer := "Passwords do not match"
  const PasswordTooWeak := "Password must contain at least one letter and one number"

  /** One check of a validation chain: whether it passes, and the error it reports. */
  datatype Check = Check(passes: bool, message: string)

  /** The position of the first failing check, or `|checks|` when all pass. */
  function FirstFailingIndex(checks: seq<Check>): (k: nat)
    ensures k <= |checks|
    ensures forall j :: 0 <= j < k ==> checks[j].passes
    ensures k < |checks| ==> !checks[k].passes
  {
    if checks == [] || !checks[0].passes then 0 else 1 + FirstFailingIndex(checks[1..])
  }

  /** The error of the first failing check, or `None` when every check passes. */
  function FirstFailure(checks: seq<Check>): (r: Option<string>)
    ensures r.None? <==> forall k :: 0 <= k < |checks| ==> checks[k].passes
    ensures r.Some? ==> exists k :: 0 <= k < |checks| && !checks[k].passes && checks[k].message == r.value &&
                                    forall j :: 0 <= j < k ==> checks[j].passes
  {
    var k := FirstFailingIndex(checks);
    if k < |checks| then Some(checks[k].message) else None
  }

  /** A chain of six checks, one check at a time. */
  lemma SixChecksUnfold(cs: seq<Check>)
    requires |cs| == 6
    ensures FirstFailure(cs) ==
        if !cs[0].passes then Some(cs[0].message)
        else if !cs[1].passes then Some(cs[1].message)
        else if !cs[2].passes then Some(cs[2].message)
        else if !cs[3].passes then Some(cs[3].message)
        else if !cs[4].passes then Some(cs[4].message)
        else if !cs[5].passes then Some(cs[5].message)
        else None
  {
    var k := FirstFailingIndex(cs);
    assert k == if !cs[0].passes then 0 else if !cs[1].passes then 1 else if !cs[2].passes then 2
                else if !cs[3].passes then 3 else if !cs[4].passes then 4 else if !cs[5].passes then 5 else 6;
  }

  /** The checks of `validateForm`, in the order it makes them. */
  function SignupChecks(f: FormData): seq<Check> {
    [ Check(f.name != "" && f.email != "" && f.password != "" && f.confirmPassword != "", FillAllFields),
      Check(JsLength(Trim(f.name)) >= 2, NameTooShort),
      Check(MatchesEmail(f.email), InvalidEmail),
      Check(JsLength(f.password) >= 6, PasswordTooShort),
      Check(f.password == f.confirmPassword, PasswordsDiffer),
      Check(HasDigit(f.password) && HasAsciiLetter(f.password), PasswordTooWeak) ]
  }

  /** `validateForm()`: `None` where it returns true, `Some(message)` where it sets
      the error `message` and returns false. It reports the first failing check of
      the chain. */
  function ValidateForm(f: FormData): (r: Option<string>)
    ensures r == FirstFailure(SignupChecks(f))
  {
    SixChecksUnfold(SignupChecks(f));
    if f.name == "" || f.email == "" || f.password == "" || f.confirmPassword == "" then Some(FillAllFields)
    else if JsLength(Trim(f.name)) < 2 then Some(NameTooShort)
    else if !MatchesEmail(f.email) then Some(InvalidEmail)
    else if JsLength(f.password) < 6 then Some(PasswordTooShort)
    else if f.password != f.confirmPassword then Some(PasswordsDiffer)
    else if !HasDigit(f.password) || !HasAsciiLetter(f.password) then Some(PasswordTooWeak)
    else None
  }

  /** An accepted form has a well-formed email, a name of at least two characters
      after trimming, matching passwords of at least six characters, and a password
      holding an ASCII letter and a digit; and every such form is accepted. */
  lemma AcceptedExactly(f: FormData)
    ensures ValidateForm(f).None? <==>
      && JsLength(Trim(f.name)) >= 2 && f.email != "" && MatchesEmail(f.email)
      && f.password == f.confirmPassword && JsLength(f.password) >= 6
      && HasDigit(f.password) && HasAsciiLetter(f.password)
  {
    if JsLength(Trim(f.name)) >= 2 {
      assert f.name != "";
    }
  }

  /** An empty field is reported before anything else. */
  lemma EmptyFieldFirst(f: FormData, field: Field)
    requires Get(f, field) == ""
    ensures ValidateForm(f) == Some(FillAllFields)
  {
  }

  /** A name made only of whitespace is not empty, so it passes the first check and
      fails the length check after trimming. */
  lemma BlankNameRejected(f: FormData)
    requires f.name != "" && forall k :: 0 <= k < |f.name| ==> IsWhitespace(f.name[k])
    requires f.email != "" && f.password != "" && f.confirmPassword != ""
    ensures ValidateForm(f) == Some(NameTooShort)
  {
    assert Trim(f.name) == [];
  }

  /** For example "   " for a name. */
  lemma ThreeSpacesRejected()
    ensures ValidateForm(FormData("   ", "a@b.co", "abc123", "abc123")) == Some(NameTooShort)
  {
    BlankNameRejected(FormData("   ", "a@b.co", "abc123", "abc123"));
  }

  /** A short password is reported whatever the confirmation holds: the length
      check comes before the match check. */
  lemma ShortPasswordBeforeMismatch(f: FormData)
    requires ValidateForm(f) != Some(FillAllFields) && ValidateForm(f) != Some(NameTooShort)
    requires ValidateForm(f) != Some(InvalidEmail)
    requires JsLength(f.password) < 6
    ensures ValidateForm(f) == Some(PasswordTooShort)
  {
  }

  /** The `signup(name, email, password)` call `handleSubmit` makes. */
  datatype SignupRequest = SignupRequest(name: string, email: string, password: string)

  /** How the asynchronous `signup` call ended. */
  datatype SignupOutcome = Succeeded | Refused | Threw

  const RegistrationRefused := "Registration failed. This email may already be registered. Please try with a different email."
  const RegistrationThrew := "Registration failed. Please try again later."

  /** The state of the sign-up component. */
  class SignupPage {
    var formData: FormData
    var error: string

    constructor ()
      ensures formData == FormData("", "", "", "") && error == ""
    {
      formData := FormData("", "", "", "");
      error := "";
    }

    /** `handleChange`: stores the typed value in its field and clears the error. */
    method HandleChange(field: Field, value: string)
      modifies this
      ensures formData == WithField(old(formData), field, value)
      ensures error == ""
    {
      formData := WithField(formData, field, value);
      error := "";
    }

    /** `handleSubmit`: calls `signup` only for a valid form, with the name and email
        trimmed and the password as typed, and navigates to the dashboard only when
        the call succeeds. `outcome` is how the call ends. */
    method HandleSubmit(outcome: SignupOutcome) returns (request: Option<SignupRequest>, navigated: bool)
      modifies this
      ensures formData == old(formData)
      ensures ValidateForm(old(formData)).Some? ==>
        request == None && !navigated && error == ValidateForm(old(formData)).value
      ensures ValidateForm(old(formData)).None? ==>
        && request == Some(SignupRequest(Trim(old(formData).name), Trim(old(formData).email), old(formData).password))
        && navigated == (outcome == Succeeded)
        && error == (match outcome
                     case Succeeded => ""
                     case Refused => RegistrationRefused
                     case Threw => RegistrationThrew)
    {
      error := "";
      var check := ValidateForm(formData);
      if check.Some? {
        error := check.value;
        return None, false;
      }
      request := Some(SignupRequest(Trim(formData.name), Trim(formData.email), formData.password));
      navigated := false;
      match outcome
      case Succeeded => navigated := true;
      case Refused => error := RegistrationRefused;
      case Threw => error := RegistrationThrew;
    }
  }
}
