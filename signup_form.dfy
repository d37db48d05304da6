/**
 * The sign-up form's submit handler and button
 * (src/components/auth/SignupForm.tsx). The handler returns silently
 * when a field is empty, then alerts on a password mismatch, then on a
 * password shorter than six characters, and only then calls `signUp`.
 */
module SignupForm {
  import opened Wrappers

  const MinPasswordLength: nat := 6

  /** What one submission does: nothing, one of the two alerts, or one `signUp` call. */
  datatype SubmitResult =
    | Ignored
    | PasswordMismatch
    | PasswordTooShort
    | SignUp(email: string, password: string, username: Option<string>)

  predicate AllFilled(email: string, password: string, confirmPassword: string) {
    email != "" && password != "" && confirmPassword != ""
  }

  /** `handleSubmit`. */
  function HandleSubmit(email: string, password: string, confirmPassword: string, username: string): (r: SubmitResult)
    ensures r.Ignored? <==> !AllFilled(email, password, confirmPassword)
    ensures r.PasswordMismatch? <==> AllFilled(email, password, confirmPassword) && password != confirmPassword
    ensures r.PasswordTooShort? <==>
              AllFilled(email, password, confirmPassword) && password == confirmPassword && |password| < MinPasswordLength
    ensures r.SignUp? <==>
              email != "" && password == confirmPassword && |password| >= MinPasswordLength
    ensures r.SignUp? ==>
              r.email == email && r.password == password &&
              (r.username.None? <==> username == "") &&
              (r.username.Some? ==> r.username.value == username)
  {
    if !AllFilled(email, password, confirmPassword) then Ignored
    else if password != confirmPassword then PasswordMismatch
    else if |password| < MinPasswordLength then PasswordTooShort
    else SignUp(email, password, if username == "" then None else Some(username))
  }

  /** The submit button's `disabled` expression. */
  predicate SubmitDisabled(isLoading: bool, email: string, password: string, confirmPassword: string)
    ensures !SubmitDisabled(isLoading, email, password, confirmPassword) ==>
              !isLoading && AllFilled(email, password, confirmPassword) && password == confirmPassword
  {
    isLoading || email == "" || password == "" || confirmPassword == "" || password != confirmPassword
  }

  /** With the button enabled, only the length check can still turn a submission down. */
  lemma EnabledSubmitOnlyLengthCanReject(isLoading: bool, email: string, password: string, confirmPassword: string, username: string)
    requires !SubmitDisabled(isLoading, email, password, confirmPassword)
    ensures var r := HandleSubmit(email, password, confirmPassword, username);
            r.SignUp? || r.PasswordTooShort?
    ensures HandleSubmit(email, password, confirmPassword, username).PasswordTooShort? <==> |password| < MinPasswordLength
  {
  }

  /** A short password that also differs from its confirmation is reported as a mismatch. */
  lemma MismatchReportedBeforeLength(email: string, password: string, confirmPassword: string, username: string)
    requires AllFilled(email, password, confirmPassword) && password != confirmPassword
    ensures HandleSubmit(email, password, confirmPassword, username) == PasswordMismatch
  {
  }
}
