/** The sign-in page: the login and sign-up form schemas, and the submit
    handlers that compare the typed CAPTCHA with the displayed code before
    sending anything. The form library runs the schema first and calls a
    handler only when it reports no issue; a handler sends only the user name
    and password, so the organisation code, e-mail and confirmation are
    checked for presence or shape and then dropped. */
module AuthPage {
  import opened Text
  import opened Validation
  import opened PasswordPolicy
  import opened Captcha

  datatype LoginForm = LoginForm(username: string, password: string, orgCode: string, captcha: string)

  datatype SignupForm = SignupForm(
    username: string, email: string, password: string,
    confirmPassword: string, orgCode: string, captcha: string)

  /** What the server is asked to do. */
  datatype AuthRequest = Login(username: string, password: string) | Register(username: string, password: string)

  /** The result of pressing the submit button. */
  datatype Outcome =
    | FormRejected(issues: seq<Issue>)   // messages shown under the fields
    | CaptchaRejected                    // the "Invalid CAPTCHA" toast
    | Sent(request: AuthRequest)         // the login or register mutation

  const UsernameRequired: string := "Username is required"
  const PasswordRequired: string := "Password is required"
  const OrgCodeRequired: string := "Organization code is required"
  const CaptchaRequired: string := "CAPTCHA is required"
  const ConfirmRequired: string := "Please confirm your password"
  const InvalidEmail: string := "Invalid email address"

  /** `loginSchema`: four non-empty strings. */
  function LoginIssues(f: LoginForm): (issues: seq<Issue>)
    ensures issues == [] <==> f.username != "" && f.password != "" && f.orgCode != "" && f.captcha != ""
    ensures forall i :: 0 <= i < |issues| ==> issues[i].path in {"username", "password", "orgCode", "captcha"}
  {
    MinLength("username", f.username, 1, UsernameRequired)
    + MinLength("password", f.password, 1, PasswordRequired)
    + MinLength("orgCode", f.orgCode, 1, OrgCodeRequired)
    + MinLength("captcha", f.captcha, 1, CaptchaRequired)
  }

  /** The field checks of `signupSchema`, in field order. */
  function SignupFieldIssues(f: SignupForm, emailValid: bool): (issues: seq<Issue>)
    ensures issues == [] <==>
      && f.username != "" && emailValid && PasswordIssues("password", f.password) == []
      && f.confirmPassword != "" && f.orgCode != "" && f.captcha != ""
    ensures Issue("email", InvalidEmail) in issues <==> !emailValid
    ensures OnlyMessageAt(issues, "confirmPassword", ConfirmRequired)
  {
    var user := MinLength("username", f.username, 1, UsernameRequired);
    var email := if emailValid then [] else [Issue("email", InvalidEmail)];
    var password := PasswordIssues("password", f.password);
    var confirm := MinLength("confirmPassword", f.confirmPassword, 1, ConfirmRequired);
    var org := MinLength("orgCode", f.orgCode, 1, OrgCodeRequired);
    var captcha := MinLength("captcha", f.captcha, 1, CaptchaRequired);
    OnlyMessageAtConcat(user, email, "confirmPassword", ConfirmRequired);
    OnlyMessageAtConcat(user + email, password, "confirmPassword", ConfirmRequired);
    OnlyMessageAtConcat(user + email + password, confirm, "confirmPassword", ConfirmRequired);
    OnlyMessageAtConcat(user + email + password + confirm, org, "confirmPassword", ConfirmRequired);
    OnlyMessageAtConcat(user + email + password + confirm + org, captcha, "confirmPassword", ConfirmRequired);
    var e := Issue("email", InvalidEmail);
    assert e !in user && e !in password && e !in confirm && e !in org && e !in captcha;
    assert e in user + email + password + confirm + org + captcha <==> e in email;
    user + email + password + confirm + org + captcha
  }

  /** `signupSchema`. `emailValid` is the library's verdict on the e-mail
      address. The refinement runs after the field checks and adds the
      mismatch under `confirmPassword`. */
  function SignupIssues(f: SignupForm, emailValid: bool): (issues: seq<Issue>)
    ensures issues == [] <==>
      && f.username != "" && emailValid && StrongPassword(f.password)
      && f.confirmPassword == f.password && f.orgCode != "" && f.captcha != ""
    ensures Issue("confirmPassword", MismatchMessage) in issues <==> f.password != f.confirmPassword
    ensures Issue("email", InvalidEmail) in issues <==> !emailValid
  {
    PolicyCharacterized("password", f.password);
    var fields := SignupFieldIssues(f, emailValid);
    assert MismatchMessage != ConfirmRequired by {
      assert MismatchMessage[1] != ConfirmRequired[1];
    }
    assert Issue("confirmPassword", MismatchMessage) !in fields;
    fields + (if f.password == f.confirmPassword then [] else [Issue("confirmPassword", MismatchMessage)])
  }

  /** Submitting the login form while `captchaCode` is displayed. */
  function SubmitLogin(f: LoginForm, captchaCode: string): (o: Outcome)
    ensures o.FormRejected? <==> !(f.username != "" && f.password != "" && f.orgCode != "" && f.captcha != "")
    ensures o.FormRejected? ==> o.issues == LoginIssues(f)
    ensures o.Sent? <==>
      f.username != "" && f.password != "" && f.orgCode != "" && f.captcha == captchaCode && captchaCode != ""
    ensures o.Sent? ==> o.request.Login? && o.request.username == f.username && o.request.password == f.password
  {
    var issues := LoginIssues(f);
    if issues != [] then FormRejected(issues)
    else if f.captcha != captchaCode then CaptchaRejected
    else Sent(Login(f.username, f.password))
  }

  /** Submitting the sign-up form while `captchaCode` is displayed. */
  function SubmitSignup(f: SignupForm, emailValid: bool, captchaCode: string): (o: Outcome)
    ensures o.FormRejected? ==> o.issues == SignupIssues(f, emailValid)
    ensures o.Sent? <==>
      && f.username != "" && emailValid && StrongPassword(f.password)
      && f.confirmPassword == f.password && f.orgCode != "" && f.captcha == captchaCode && captchaCode != ""
    ensures o.CaptchaRejected? <==> SignupIssues(f, emailValid) == [] && f.captcha != captchaCode
    ensures o.Sent? ==> o.request.Register? && o.request.username == f.username && o.request.password == f.password
  {
    var issues := SignupIssues(f, emailValid);
    if issues != [] then FormRejected(issues)
    else if f.captcha != captchaCode then CaptchaRejected
    else Sent(Register(f.username, f.password))
  }

  /** The organisation code is only required to be non-empty: any other
      non-empty value gives the same outcome. */
  lemma LoginIgnoresOrgCode(f: LoginForm, captchaCode: string, orgCode: string)
    requires f.orgCode != "" && orgCode != ""
    ensures SubmitLogin(f.(orgCode := orgCode), captchaCode) == SubmitLogin(f, captchaCode)
  {
  }

  /** Among valid sign-up forms, the request depends on the user name and
      password alone: e-mail and organisation code never reach the server. */
  lemma SignupSendsOnlyCredentials(f: SignupForm, g: SignupForm, captchaCode: string)
    requires SubmitSignup(f, true, captchaCode).Sent? && SubmitSignup(g, true, captchaCode).Sent?
    requires f.username == g.username && f.password == g.password
    ensures SubmitSignup(f, true, captchaCode) == SubmitSignup(g, true, captchaCode)
  {
  }

  /** The comparison is case-sensitive and the sign-in alphabet has no
      lower-case letters, so a typed code with a lower-case letter never
      requests a login. */
  lemma CaptchaIsCaseSensitive(f: LoginForm, captchaCode: string, k: int)
    requires OverAlphabet(captchaCode, AuthAlphabet)
    requires 0 <= k < |f.captcha| && IsAsciiLower(f.captcha[k])
    ensures !SubmitLogin(f, captchaCode).Sent?
  {
    if f.captcha == captchaCode {
      AuthAlphabetCharacterized(captchaCode[k]);
    }
  }

  /** Typing the displayed code in lower case is refused when the code
      contains a letter, whatever alphabet it was drawn from. */
  lemma LowerCasedCodeRefused(f: LoginForm, captchaCode: string, k: int)
    requires 0 <= k < |captchaCode| && IsAsciiUpper(captchaCode[k])
    requires f.captcha == Lower(captchaCode)
    ensures !SubmitLogin(f, captchaCode).Sent?
  {
    assert f.captcha[k] != captchaCode[k];
  }
}
