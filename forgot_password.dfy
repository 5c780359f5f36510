/**
 * The two-step password reset of `client/src/pages/ForgotPassword.jsx`: first
 * the email step, which asks the server for a one-time password (OTP), then the
 * OTP step, which checks the new password locally and sends it with the OTP.
 */
module ForgotPasswordPage {
  import opened Wrappers
  import opened Text
  import opened Http
  import opened Api

  /** `response.data` of both calls: the server's message. */
  datatype MsgData = MsgData(msg: string)

  const ForgotUrl := "/api/auth/forgot-password"
  const ResetUrl := "/api/auth/reset-password"
  const MismatchError := "Passwords do not match"
  const ShortPasswordError := "Password must be at least 8 characters long"
  const SendFallback := "Failed to process request"
  const ResetFallback := "Failed to reset password"
  const MinPasswordLength := 8

  /** The two local checks of `resetPassword`, in their order: the message of the
      first one that fails, or `None` when the request may go out. A mismatch is
      reported even when the password is also too short. */
  function ResetGuard(newPassword: string, confirmPassword: string): (r: Option<string>)
    ensures r == None <==> newPassword == confirmPassword && |newPassword| >= MinPasswordLength
    ensures newPassword != confirmPassword ==> r == Some(MismatchError)
    ensures newPassword == confirmPassword && |newPassword| < MinPasswordLength ==> r == Some(ShortPasswordError)
  {
    if newPassword != confirmPassword then Some(MismatchError)
    else if |newPassword| < MinPasswordLength then Some(ShortPasswordError)
    else None
  }

  /** Seven characters are refused and eight accepted. */
  lemma PasswordLengthBoundary()
    ensures ResetGuard("1234567", "1234567") == Some(ShortPasswordError)
    ensures ResetGuard("12345678", "12345678") == None
  {
  }

  /** `err.response?.data?.msg?.includes('expired')`: the server said the OTP has
      expired. */
  predicate OtpExpired(err: HttpError)
  {
    err.ErrorResponse? && err.msg.Some? && Contains(err.msg.value, "expired")
  }

  /** An error sends the page back to the email step exactly when its message has
      `expired` somewhere in it. */
  lemma OtpExpiredIff(err: HttpError)
    ensures OtpExpired(err) <==> err.ErrorResponse? && err.msg.Some? && exists i :: OccursAt(err.msg.value, "expired", i)
  {
    if err.ErrorResponse? && err.msg.Some? {
      ContainsIff(err.msg.value, "expired");
    }
  }

  /** `api.post('/api/auth/forgot-password', { email })`: the email and nothing else. */
  function OtpRequest(email: string): (r: Request)
    ensures r.verb == "POST" && r.url == ForgotUrl
    ensures r.body.Fields? && r.body.fields.Keys == {"email"} && r.body.fields["email"] == email
    ensures AuthorizationHeader !in r.headers
  {
    ApiRequest("POST", ForgotUrl, Fields(map["email" := email]))
  }

  /** The reset request: the email, the OTP and the new password only in its
      encrypted form. */
  function ResetRequest(email: string, otp: string, newPassword: string, encrypt: string -> string): (r: Request)
    ensures r.verb == "POST" && r.url == ResetUrl
    ensures r.body.Fields? && r.body.fields.Keys == {"email", "otp", "newPassword"}
    ensures r.body.fields["email"] == email && r.body.fields["otp"] == otp
    ensures r.body.fields["newPassword"] == encrypt(newPassword)
  {
    ApiRequest("POST", ResetUrl, Fields(map["email" := email, "otp" := otp, "newPassword" := encrypt(newPassword)]))
  }

  class ForgotPassword {
    var email: string
    var message: string
    var error: string
    var loading: bool
    var showOtpInput: bool
    var otp: string
    var newPassword: string
    var confirmPassword: string
    /** The navigation `setTimeout` will make; the two-second delay itself is not
        modelled. */
    var scheduledRoute: Option<string>
    /** Whether `loading` was on when the last request left. */
    ghost var loadingWhenSent: bool

    constructor ()
      ensures email == "" && message == "" && error == "" && !loading && !showOtpInput
      ensures otp == "" && newPassword == "" && confirmPassword == "" && scheduledRoute == None
    {
      email, message, error, loading, showOtpInput := "", "", "", false, false;
      otp, newPassword, confirmPassword, scheduledRoute := "", "", "", None;
      loadingWhenSent := false;
    }

    /** `sendResetOTP`: on success the page moves to the OTP step and shows the
        server's message; on failure it stays where it was and shows the server's
        `msg` or the fallback. Either way `loading` covers the call and ends off. */
    method SendResetOtp(b: Browser, ex: Exchange<MsgData>)
      modifies this, b
      ensures var e := Dispatch(old(b.store), OtpRequest(old(email)), ex);
              && b.log == old(b.log) + e.calls && b.store == e.store
              && b.route == (if e.loggedOut then LoginRoute else old(b.route))
              && (e.result.Ok? ==> showOtpInput && message == e.result.data.msg && error == "")
              && (e.result.Fail? ==>
                    showOtpInput == old(showOtpInput) && message == "" && error == e.result.error.MsgOr(SendFallback))
      ensures loadingWhenSent && !loading
      ensures email == old(email) && otp == old(otp) && newPassword == old(newPassword)
      ensures confirmPassword == old(confirmPassword) && scheduledRoute == old(scheduledRoute)
    {
      loading := true;
      error := "";
      message := "";
      loadingWhenSent := loading;
      var response := b.Send(OtpRequest(email), ex);
      ShowOtpOutcome(response);
      loading := false;
    }

    /** What the page shows once the OTP request has been answered. */
    method ShowOtpOutcome(response: Response<MsgData>)
      modifies this
      requires message == "" && error == ""
      ensures response.Ok? ==> showOtpInput && message == response.data.msg && error == ""
      ensures response.Fail? ==>
                showOtpInput == old(showOtpInput) && message == "" && error == response.error.MsgOr(SendFallback)
      ensures email == old(email) && otp == old(otp) && newPassword == old(newPassword)
      ensures confirmPassword == old(confirmPassword) && scheduledRoute == old(scheduledRoute)
      ensures loading == old(loading) && loadingWhenSent == old(loadingWhenSent)
    {
      match response {
        case Ok(data) =>
          message := data.msg;
          showOtpInput := true;
        case Fail(err) =>
          error := err.MsgOr(SendFallback);
      }
    }

    /** `resetPassword`: when a local check fails, its message is shown and nothing
        else happens: no request, no change to `loading`, `message` or the step;
        otherwise the request goes out as `SubmitReset` says. */
    method ResetPassword(b: Browser, encrypt: string -> string, ex: Exchange<MsgData>)
      modifies this, b
      ensures ResetGuard(old(newPassword), old(confirmPassword)).Some? ==>
                && error == ResetGuard(old(newPassword), old(confirmPassword)).value
                && b.log == old(b.log) && b.store == old(b.store) && b.route == old(b.route)
                && loading == old(loading) && message == old(message) && showOtpInput == old(showOtpInput)
                && scheduledRoute == old(scheduledRoute)
      ensures ResetGuard(old(newPassword), old(confirmPassword)).None? ==>
                var e := Dispatch(old(b.store), ResetRequest(old(email), old(otp), old(newPassword), encrypt), ex);
                && b.log == old(b.log) + e.calls && b.store == e.store
                && b.route == (if e.loggedOut then LoginRoute else old(b.route))
                && loadingWhenSent && !loading
                && (e.result.Ok? ==>
                      message == e.result.data.msg && error == "" && scheduledRoute == Some(LoginRoute)
                      && showOtpInput == old(showOtpInput))
                && (e.result.Fail? ==>
                      && message == "" && error == e.result.error.MsgOr(ResetFallback)
                      && scheduledRoute == old(scheduledRoute)
                      && showOtpInput == (if OtpExpired(e.result.error) then false else old(showOtpInput)))
      ensures email == old(email) && otp == old(otp) && newPassword == old(newPassword)
      ensures confirmPassword == old(confirmPassword)
    {
      if newPassword != confirmPassword {
        error := MismatchError;
        return;
      }
      if |newPassword| < MinPasswordLength {
        error := ShortPasswordError;
        return;
      }
      SubmitReset(b, encrypt, ex);
    }

    /** The part of `resetPassword` after both checks passed: one gateway request
        carries the encrypted new password; on success the server's message is
        shown and a move to `/login` is scheduled; on failure the server's `msg` or
        the fallback is shown and the page returns to the email step exactly when
        that message says the OTP expired; `loading` covers the call and ends off. */
    method SubmitReset(b: Browser, encrypt: string -> string, ex: Exchange<MsgData>)
      modifies this, b
      ensures var e := Dispatch(old(b.store), ResetRequest(old(email), old(otp), old(newPassword), encrypt), ex);
              && b.log == old(b.log) + e.calls && b.store == e.store
              && b.route == (if e.loggedOut then LoginRoute else old(b.route))
              && loadingWhenSent && !loading
              && (e.result.Ok? ==>
                    message == e.result.data.msg && error == "" && scheduledRoute == Some(LoginRoute)
                    && showOtpInput == old(showOtpInput))
              && (e.result.Fail? ==>
                    && message == "" && error == e.result.error.MsgOr(ResetFallback)
                    && scheduledRoute == old(scheduledRoute)
                    && showOtpInput == (if OtpExpired(e.result.error) then false else old(showOtpInput)))
      ensures email == old(email) && otp == old(otp) && newPassword == old(newPassword)
      ensures confirmPassword == old(confirmPassword)
    {
      loading := true;
      error := "";
      message := "";
      loadingWhenSent := loading;
      var response := b.Send(ResetRequest(email, otp, newPassword, encrypt), ex);
      ShowResetOutcome(response);
      loading := false;
    }

    /** What the page shows once the reset request has been answered. */
    method ShowResetOutcome(response: Response<MsgData>)
      modifies this
      requires message == "" && error == ""
      ensures response.Ok? ==>
                message == response.data.msg && error == "" && scheduledRoute == Some(LoginRoute)
                && showOtpInput == old(showOtpInput)
      ensures response.Fail? ==>
                && message == "" && error == response.error.MsgOr(ResetFallback)
                && scheduledRoute == old(scheduledRoute)
                && showOtpInput == (if OtpExpired(response.error) then false else old(showOtpInput))
      ensures email == old(email) && otp == old(otp) && newPassword == old(newPassword)
      ensures confirmPassword == old(confirmPassword) && loading == old(loading)
      ensures loadingWhenSent == old(loadingWhenSent)
    {
      match response {
        case Ok(data) =>
          message := data.msg;
          scheduledRoute := Some(LoginRoute);
        case Fail(err) =>
          error := err.MsgOr(ResetFallback);
          if OtpExpired(err) {
            showOtpInput := false;
          }
      }
    }
  }
}
