/** The reset-password page. Its schema asks for a CAPTCHA, but the submit
    handler only logs the form values: the typed code is never compared with
    the displayed one and nothing is sent. The e-mail and organisation-code
    fields have no default value, so they are absent until the user types in
    them. */
module ResetPassword {
  import opened Util
  import opened Text
  import opened Validation
  import opened PasswordPolicy

  datatype ResetForm = ResetForm(
    email: Option<string>, orgCode: Option<string>, oldPassword: string,
    newPassword: string, confirmPassword: string, captcha: string)

  /** The result of pressing "Reset Password". */
  datatype ResetOutcome = ResetRejected(issues: seq<Issue>) | ResetLogged(values: ResetForm)

  const RequiredMessage: string := "Required"
  const InvalidEmail: string := "Invalid email address"
  const OrgCodeRequired: string := "Organization code is required"
  const CurrentPasswordRequired: string := "Current password is required"
  const ConfirmRequired: string := "Please confirm your password"
  const CaptchaRequired: string := "CAPTCHA is required"

  /** A required string field that may be absent. */
  function PresentField(path: string, v: Option<string>, whenPresent: seq<Issue>): (issues: seq<Issue>)
    ensures v.None? ==> issues == [Issue(path, RequiredMessage)]
    ensures v.Some? ==> issues == whenPresent
  {
    if v.None? then [Issue(path, RequiredMessage)] else whenPresent
  }

  /** The e-mail field: absent, or present and judged by the library. */
  function EmailIssues(email: Option<string>, emailValid: bool): (issues: seq<Issue>)
    ensures issues == [] <==> email.Some? && emailValid
    ensures forall i :: 0 <= i < |issues| ==> issues[i].path == "email"
  {
    PresentField("email", email, if emailValid then [] else [Issue("email", InvalidEmail)])
  }

  /** The organisation-code field: absent, or present and non-empty. */
  function OrgCodeIssues(orgCode: Option<string>): (issues: seq<Issue>)
    ensures issues == [] <==> orgCode.Some? && orgCode.value != ""
    ensures forall i :: 0 <= i < |issues| ==> issues[i].path == "orgCode"
  {
    PresentField("orgCode", orgCode,
                 if orgCode.Some? then MinLength("orgCode", orgCode.value, 1, OrgCodeRequired) else [])
  }

  /** The field checks of `resetPasswordSchema`, in field order. */
  function ResetFieldIssues(f: ResetForm, emailValid: bool): (issues: seq<Issue>)
    ensures issues == [] <==>
      && f.email.Some? && emailValid && f.orgCode.Some? && f.orgCode.value != ""
      && f.oldPassword != "" && PasswordIssues("newPassword", f.newPassword) == []
      && f.confirmPassword != "" && f.captcha != ""
    ensures OnlyMessageAt(issues, "confirmPassword", ConfirmRequired)
  {
    var email := EmailIssues(f.email, emailValid);
    var org := OrgCodeIssues(f.orgCode);
    var current := MinLength("oldPassword", f.oldPassword, 1, CurrentPasswordRequired);
    var password := PasswordIssues("newPassword", f.newPassword);
    var confirm := MinLength("confirmPassword", f.confirmPassword, 1, ConfirmRequired);
    var captcha := MinLength("captcha", f.captcha, 1, CaptchaRequired);
    OnlyMessageAtConcat(email, org, "confirmPassword", ConfirmRequired);
    OnlyMessageAtConcat(email + org, current, "confirmPassword", ConfirmRequired);
    OnlyMessageAtConcat(email + org + current, password, "confirmPassword", ConfirmRequired);
    OnlyMessageAtConcat(email + org + current + password, confirm, "confirmPassword", ConfirmRequired);
    OnlyMessageAtConcat(email + org + current + password + confirm, captcha, "confirmPassword", ConfirmRequired);
    email + org + current + password + confirm + captcha
  }

  /** `resetPasswordSchema`. `emailValid` is the library's verdict on the
      e-mail address when one is present. An absent field aborts the object
      parse, so the password-match refinement then does not run. */
  function ResetIssues(f: ResetForm, emailValid: bool): (issues: seq<Issue>)
    ensures issues == [] <==>
      && f.email.Some? && emailValid && f.orgCode.Some? && f.orgCode.value != ""
      && f.oldPassword != "" && StrongPassword(f.newPassword)
      && f.confirmPassword == f.newPassword && f.captcha != ""
  {
    PolicyCharacterized("newPassword", f.newPassword);
    var aborted := f.email.None? || f.orgCode.None?;
    ResetFieldIssues(f, emailValid)
    + (if aborted || f.newPassword == f.confirmPassword then [] else [Issue("confirmPassword", MismatchMessage)])
  }

  /** The mismatch is reported exactly when both optional fields are present
      and the two new-password entries differ. */
  lemma MismatchReported(f: ResetForm, emailValid: bool)
    ensures Issue("confirmPassword", MismatchMessage) in ResetIssues(f, emailValid) <==>
      f.email.Some? && f.orgCode.Some? && f.newPassword != f.confirmPassword
  {
    var fields := ResetFieldIssues(f, emailValid);
    assert MismatchMessage != ConfirmRequired by {
      assert MismatchMessage[1] != ConfirmRequired[1];
    }
    assert Issue("confirmPassword", MismatchMessage) !in fields;
  }

  /** `handleSubmit`, reached only when the schema reports no issue.
      `captchaCode` is the code on screen; nothing reads it. */
  function SubmitReset(f: ResetForm, emailValid: bool, captchaCode: string): (o: ResetOutcome)
    ensures o.ResetLogged? <==>
      && f.email.Some? && emailValid && f.orgCode.Some? && f.orgCode.value != ""
      && f.oldPassword != "" && StrongPassword(f.newPassword)
      && f.confirmPassword == f.newPassword && f.captcha != ""
    ensures o.ResetLogged? ==> o.values == f
    ensures o.ResetRejected? ==> o.issues == ResetIssues(f, emailValid)
  {
    var issues := ResetIssues(f, emailValid);
    if issues != [] then ResetRejected(issues) else ResetLogged(f)
  }

  /** The outcome is the same whatever code is displayed. */
  lemma CaptchaNeverCompared(f: ResetForm, emailValid: bool, shown: string, other: string)
    ensures SubmitReset(f, emailValid, shown) == SubmitReset(f, emailValid, other)
  {
  }

  /** Whatever non-empty code is typed, a form that passes the schema is
      accepted, including one that differs from the code on screen. */
  lemma AnyTypedCodeAccepted(f: ResetForm, emailValid: bool, shown: string, typed: string)
    requires SubmitReset(f, emailValid, shown).ResetLogged?
    requires typed != ""
    ensures SubmitReset(f.(captcha := typed), emailValid, shown) == ResetLogged(f.(captcha := typed))
  {
  }
}
