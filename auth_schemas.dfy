/**
 * The login and signup form rules. Each schema's verdict is the list of issues
 * it reports, field by field in declaration order, with the password match
 * reported last on the `confirmPassword` path. The email format check is a
 * parameter.
 */
module AuthSchemas {
  const MinNameLength := 3
  const MinPasswordLength := 8

  const NameMessage := "name must be atleast 3 chars long"
  const EmailMessage := "Invalid email address"
  const PasswordMessage := "Password must be atleast 8 chars long"
  const MismatchMessage := "Passwords don't match"

  /** A validation issue: the field it is reported on and its message. */
  datatype Issue = Issue(path: string, message: string)

  datatype LoginInput = LoginInput(email: string, password: string)

  datatype SignupInput = SignupInput(name: string, email: string, password: string, confirmPassword: string)

  /** The issue a rule contributes: none when it holds, otherwise just its own. */
  function Check(ok: bool, issue: Issue): (r: seq<Issue>)
    ensures |r| == if ok then 0 else 1
    ensures forall i :: 0 <= i < |r| ==> r[i] == issue
  {
    if ok then [] else [issue]
  }

  function LoginIssues(input: LoginInput, isEmail: string -> bool): (issues: seq<Issue>)
    ensures issues == [] <==> isEmail(input.email) && |input.password| >= MinPasswordLength
    ensures Issue("email", EmailMessage) in issues <==> !isEmail(input.email)
    ensures Issue("password", PasswordMessage) in issues <==> |input.password| < MinPasswordLength
    ensures |issues| == (if isEmail(input.email) then 0 else 1)
                        + (if |input.password| >= MinPasswordLength then 0 else 1)
  {
    Check(isEmail(input.email), Issue("email", EmailMessage))
    + Check(|input.password| >= MinPasswordLength, Issue("password", PasswordMessage))
  }

  function SignupIssues(input: SignupInput, isEmail: string -> bool): (issues: seq<Issue>)
    ensures issues == [] <==>
      (|input.name| >= MinNameLength && isEmail(input.email)
       && |input.password| >= MinPasswordLength && input.password == input.confirmPassword)
    ensures Issue("name", NameMessage) in issues <==> |input.name| < MinNameLength
    ensures Issue("email", EmailMessage) in issues <==> !isEmail(input.email)
    ensures Issue("password", PasswordMessage) in issues <==> |input.password| < MinPasswordLength
    ensures Issue("confirmPassword", MismatchMessage) in issues <==> input.password != input.confirmPassword
    ensures forall i :: 0 <= i < |issues| ==> issues[i].path != "confirmPassword" || issues[i].message == MismatchMessage
    ensures |issues| == (if |input.name| >= MinNameLength then 0 else 1)
                        + (if isEmail(input.email) then 0 else 1)
                        + (if |input.password| >= MinPasswordLength then 0 else 1)
                        + (if input.password == input.confirmPassword then 0 else 1)
  {
    Check(|input.name| >= MinNameLength, Issue("name", NameMessage))
    + Check(isEmail(input.email), Issue("email", EmailMessage))
    + Check(|input.password| >= MinPasswordLength, Issue("password", PasswordMessage))
    + Check(input.password == input.confirmPassword, Issue("confirmPassword", MismatchMessage))
  }

  predicate SignupValid(input: SignupInput, isEmail: string -> bool)
  {
    SignupIssues(input, isEmail) == []
  }

  /** `confirmPassword` has no length rule: a short one is only ever reported as
      a mismatch, and in a valid signup it is long enough because it equals the
      password. */
  lemma ConfirmationLengthFollows(input: SignupInput, isEmail: string -> bool)
    ensures SignupValid(input, isEmail) ==> |input.confirmPassword| >= MinPasswordLength
    ensures |input.confirmPassword| < MinPasswordLength && |input.password| >= MinPasswordLength ==>
      Issue("confirmPassword", MismatchMessage) in SignupIssues(input, isEmail)
      && Issue("confirmPassword", PasswordMessage) !in SignupIssues(input, isEmail)
  {
  }

  /** A valid signup's email and password also pass the login form. */
  lemma SignupPassesLogin(input: SignupInput, isEmail: string -> bool)
    requires SignupValid(input, isEmail)
    ensures LoginIssues(LoginInput(input.email, input.password), isEmail) == []
  {
  }
}
