/**
 * The OTP page: a six-character code, a guard that shows an error card unless the query
 * carries an email, and a submission (a simulated call that always succeeds) that moves on
 * to the password reset with the email and the code in the query string.
 */
module VerifyOtp {
  import opened Wrappers
  import opened Text
  import opened Forms

  const OtpLength: nat := 6
  const WrongLength: string := "Mã OTP phải có 6 ký tự"
  const Verified: string := "Xác thực OTP thành công!"
  const ResetPath: string := "/reset-password"

  /** `z.string().min(6, message).max(6, message)`. */
  function OtpIssues(otp: string): seq<Issue> {
    MinLength("otp", otp, OtpLength, WrongLength) + MaxLength("otp", otp, OtpLength, WrongLength)
  }

  /** The code passes exactly when it has six characters, and a wrong length reports one issue. */
  lemma OtpIssuesIffLengthSix(otp: string)
    ensures OtpIssues(otp) == [] <==> |otp| == OtpLength
    ensures |otp| != OtpLength ==> OtpIssues(otp) == [Issue("otp", Some(WrongLength))]
  {
  }

  /** What the page renders: the disabled placeholder before mounting, then the error card or the form. */
  datatype Screen = Placeholder | MissingEmail | OtpForm

  function Render(mounted: bool, email: Option<string>): (r: Screen)
    ensures !mounted <==> r == Placeholder
    ensures r == OtpForm <==> mounted && Truthy(email)
  {
    if !mounted then Placeholder
    else if !Truthy(email) then MissingEmail
    else OtpForm
  }

  /**
   * `/reset-password?email=${encodeURIComponent(email)}&otp=${otp}`: the email goes through the
   * encoder, given here as a parameter; the code is inserted as typed.
   */
  function RedirectUrl(email: string, otp: string, encode: string -> string): string {
    ResetPath + "?" + Query(email, otp, encode)
  }

  /** The redirect's query string. */
  function Query(email: string, otp: string, encode: string -> string): string {
    "email=" + encode(email) + "&otp=" + otp
  }

  /** A submission with the `loading` values it passes through. */
  datatype Submission = Submission(issues: seq<Issue>, toast: Option<Toast>, navigateTo: Option<string>, loading: seq<bool>)

  /**
   * `form.handleSubmit(onSubmit)` on the rendered form: a code of the wrong length shows its
   * issue; otherwise `loading` is raised and lowered around the simulated call, which always
   * succeeds, and the page moves to the reset with the email and the code.
   */
  function Submit(email: string, otp: string, encode: string -> string): (r: Submission)
    ensures r.issues == OtpIssues(otp)
    ensures r.navigateTo.Some? <==> |otp| == OtpLength
    ensures r.navigateTo.Some? ==> r.navigateTo.value == RedirectUrl(email, otp, encode) &&
                                   r.toast == Some(SuccessToast(Verified))
    ensures r.toast.None? <==> |otp| != OtpLength
    ensures r.loading == (if |otp| == OtpLength then [true, false] else [])
  {
    OtpIssuesIffLengthSix(otp);
    var issues := OtpIssues(otp);
    if issues != [] then Submission(issues, None, None, [])
    else Submission(issues, Some(SuccessToast(Verified)), Some(RedirectUrl(email, otp, encode)), [true, false])
  }

  // ---------------------------------------------------------------------------
  // Reading the redirect back

  /** The pieces of `s` between occurrences of `sep`, as `String.prototype.split` with a one-character separator gives them. */
  function Split(s: string, sep: char): (r: seq<string>)
    ensures |r| >= 1
    decreases |s|
  {
    if s == [] then [""]
    else if s[0] == sep then [""] + Split(s[1..], sep)
    else
      var rest := Split(s[1..], sep);
      [[s[0]] + rest[0]] + rest[1..]
  }

  lemma {:induction false} SplitWithoutSeparator(s: string, sep: char)
    requires sep !in s
    ensures Split(s, sep) == [s]
    decreases |s|
  {
    if s != [] {
      assert sep !in s[1..] by {
        forall k | 0 <= k < |s[1..]| ensures s[1..][k] != sep { assert s[1..][k] == s[k + 1]; }
      }
      SplitWithoutSeparator(s[1..], sep);
      assert [s[0]] + s[1..] == s;
    }
  }

  lemma {:induction false} SplitAtSeparator(a: string, b: string, sep: char)
    requires sep !in a
    ensures Split(a + [sep] + b, sep) == [a] + Split(b, sep)
    decreases |a|
  {
    if a == [] {
      assert a + [sep] + b == [sep] + b;
      assert ([sep] + b)[1..] == b;
    } else {
      var s := a + [sep] + b;
      assert sep !in a[1..] by {
        forall k | 0 <= k < |a[1..]| ensures a[1..][k] != sep { assert a[1..][k] == a[k + 1]; }
      }
      assert s[0] == a[0];
      assert s[1..] == a[1..] + [sep] + b;
      SplitAtSeparator(a[1..], b, sep);
      assert [a[0]] + a[1..] == a;
    }
  }

  /**
   * As long as neither the encoded email nor the code holds an `&`, the query string splits into
   * exactly the two assignments, so the reset page reads back the email and the code.
   */
  lemma RedirectCarriesBoth(email: string, otp: string, encode: string -> string)
    requires '&' !in encode(email) && '&' !in otp
    ensures Split(Query(email, otp, encode), '&') == ["email=" + encode(email), "otp=" + otp]
  {
    var e := "email=" + encode(email);
    var o := "otp=" + otp;
    assert Query(email, otp, encode) == e + ['&'] + o;
    assert '&' !in e by {
      forall k | 0 <= k < |e| ensures e[k] != '&' {
        if k >= 6 { assert e[k] == encode(email)[k - 6]; }
      }
    }
    assert '&' !in o by {
      forall k | 0 <= k < |o| ensures o[k] != '&' {
        if k >= 4 { assert o[k] == otp[k - 4]; }
      }
    }
    SplitAtSeparator(e, o, '&');
    SplitWithoutSeparator(o, '&');
  }

  /** A six-digit code never holds an `&`, so leaving it unencoded is harmless for the codes the page asks for. */
  lemma DigitCodesNeedNoEncoding(otp: string)
    requires forall k :: 0 <= k < |otp| ==> IsDigit(otp[k])
    ensures '&' !in otp
  {
  }

  /** A code holding `&` loses everything after it to a query parameter of its own. */
  lemma UnencodedCodeSplits(email: string, head: string, tail: string, encode: string -> string)
    requires '&' !in encode(email) && '&' !in head && '&' !in tail
    ensures Split(Query(email, head + "&" + tail, encode), '&') == ["email=" + encode(email), "otp=" + head, tail]
  {
    var e := "email=" + encode(email);
    var o := "otp=" + head;
    assert Query(email, head + "&" + tail, encode) == e + ['&'] + (o + ['&'] + tail);
    assert '&' !in e by {
      forall k | 0 <= k < |e| ensures e[k] != '&' {
        if k >= 6 { assert e[k] == encode(email)[k - 6]; }
      }
    }
    assert '&' !in o by {
      forall k | 0 <= k < |o| ensures o[k] != '&' {
        if k >= 4 { assert o[k] == head[k - 4]; }
      }
    }
    SplitAtSeparator(e, o + ['&'] + tail, '&');
    SplitAtSeparator(o, tail, '&');
    SplitWithoutSeparator(tail, '&');
  }

  /** Such a code passes the length rule: "12&x=1" is accepted, and the reset page would read the code as "12". */
  lemma AmpersandCodeAccepted()
    ensures OtpIssues("12&x=1") == []
    ensures "12&x=1" == "12" + "&" + "x=1"
  {
  }
}
