/**
 * The reset-password page: two password fields that must be long enough and equal, a guard
 * that shows an error card unless the query carries both the email and the OTP, and the
 * submission that sends the new password.
 */
module ResetPassword {
  import opened Wrappers
  import opened Text
  import opened Forms

  const MinPassword: nat := 6
  const TooShort: string := "Mật khẩu phải từ 6 ký tự"
  const Mismatch: string := "Mật khẩu xác nhận không khớp"
  const ResetSucceeded: string := "Đặt lại mật khẩu thành công!"
  const ResetFailed: string := "Có lỗi xảy ra, vui lòng thử lại sau"
  const LoginRoute: string := "/auth/login"

  datatype Passwords = Passwords(newPassword: string, confirmPassword: string)

  /**
   * `formSchema`: the length rule on each field, then the equality refinement, which is
   * evaluated even when a length rule failed and reports under `confirmPassword`.
   */
  function PasswordIssues(p: Passwords): seq<Issue> {
    MinLength("newPassword", p.newPassword, MinPassword, TooShort) +
    MinLength("confirmPassword", p.confirmPassword, MinPassword, TooShort) +
    (if p.newPassword != p.confirmPassword then [Issue("confirmPassword", Some(Mismatch))] else [])
  }

  /** What the schema demands: two equal passwords of at least six characters. */
  predicate ValidPasswords(p: Passwords) {
    |p.newPassword| >= MinPassword && p.newPassword == p.confirmPassword
  }

  /** The schema passes exactly when both passwords are equal and long enough; a mismatch is always reported. */
  lemma PasswordIssuesIffInvalid(p: Passwords)
    ensures PasswordIssues(p) == [] <==> ValidPasswords(p)
    ensures p.newPassword != p.confirmPassword ==> Issue("confirmPassword", Some(Mismatch)) in PasswordIssues(p)
    ensures p.newPassword == p.confirmPassword ==> Issue("confirmPassword", Some(Mismatch)) !in PasswordIssues(p)
  {
    var a := MinLength("newPassword", p.newPassword, MinPassword, TooShort);
    var b := MinLength("confirmPassword", p.confirmPassword, MinPassword, TooShort);
    var c := if p.newPassword != p.confirmPassword then [Issue("confirmPassword", Some(Mismatch))] else [];
    assert PasswordIssues(p) == a + b + c;
    if p.newPassword != p.confirmPassword { assert c[0] == (a + b + c)[|a| + |b|]; }
  }

  /** Short and different passwords report all three rules, the mismatch last. */
  lemma ShortMismatchReportsAll()
    ensures PasswordIssues(Passwords("abc", "xyz")) ==
              [Issue("newPassword", Some(TooShort)), Issue("confirmPassword", Some(TooShort)),
               Issue("confirmPassword", Some(Mismatch))]
  {
  }

  /** What the page renders: nothing before mounting, then the error card or the form. */
  datatype Screen = Blank | MissingCredentials | PasswordForm

  /** `!email || !otp` decides between the error card and the form. */
  function Render(mounted: bool, email: Option<string>, otp: Option<string>): (r: Screen)
    ensures !mounted <==> r == Blank
    ensures r == PasswordForm <==> mounted && Truthy(email) && Truthy(otp)
  {
    if !mounted then Blank
    else if !Truthy(email) || !Truthy(otp) then MissingCredentials
    else PasswordForm
  }

  datatype ResetRequest = ResetRequest(email: string, otp: string, newPassword: string)

  /** A submission with the `loading` values it passes through. */
  datatype Submission = Submission(outcome: Outcome<ResetRequest>, loading: seq<bool>)

  /**
   * `form.handleSubmit(onSubmit)` on the rendered form: failing values show their issues;
   * otherwise email, OTP and the new password alone are sent, `loading` is raised for the call
   * and lowered whatever happens, and success moves to the login page.
   */
  function Submit(email: string, otp: string, p: Passwords, result: ApiResult): (r: Submission)
    ensures r.outcome.issues == PasswordIssues(p)
    ensures r.outcome.sent.Some? <==> ValidPasswords(p)
    ensures r.outcome.sent.Some? ==> r.outcome.sent.value == ResetRequest(email, otp, p.newPassword)
    ensures r.loading == (if ValidPasswords(p) then [true, false] else [])
    ensures r.outcome.toast.None? <==> !ValidPasswords(p)
    ensures r.outcome.navigateTo.Some? <==> ValidPasswords(p) && result.Ok?
    ensures r.outcome.navigateTo.Some? ==>
              r.outcome.navigateTo.value == LoginRoute && r.outcome.toast == Some(SuccessToast(ResetSucceeded))
    ensures ValidPasswords(p) && result.Err? ==>
              r.outcome.toast == Some(ErrorToast(ServerFirstMessage(result.error, ResetFailed)))
  {
    PasswordIssuesIffInvalid(p);
    var issues := PasswordIssues(p);
    if issues != [] then Submission(Rejected(issues), [])
    else
      var request := ResetRequest(email, otp, p.newPassword);
      match result
      case Ok => Submission(Outcome(issues, Some(request), Some(SuccessToast(ResetSucceeded)), Some(LoginRoute)), [true, false])
      case Err(e) => Submission(Outcome(issues, Some(request), Some(ErrorToast(ServerFirstMessage(e, ResetFailed))), None), [true, false])
  }

  /** After any submission the button is enabled again, and a failure always explains itself. */
  lemma LoadingEndsLowered(email: string, otp: string, p: Passwords, result: ApiResult)
    ensures var r := Submit(email, otp, p, result);
            r.loading == [] || r.loading[|r.loading| - 1] == false
    ensures var r := Submit(email, otp, p, result);
            r.outcome.toast.Some? && r.outcome.toast.value.ErrorToast? ==> r.outcome.toast.value.text != ""
  {
    if ValidPasswords(p) && result.Err? {
      ServerFirstMessageNonEmpty(result.error, ResetFailed);
    }
  }
}
