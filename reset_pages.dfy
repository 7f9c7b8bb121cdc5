/** The two last pages of the password-reset flow: `VerifyResetOtp.jsx`
    (enter the mailed code, with an expiry display and a resend cooldown) and
    `ResetPassword.jsx` (choose the new password under the client policy). */
module ResetPages {
  import opened Wrappers
  import opened Text
  import opened PasswordPolicy
  import opened AuthClient

  const CodeLifetime: int := 600
  const CooldownLength: int := 60

  /** The code-entry page. */
  class VerifyResetOtp {
    var email: string
    var otp: string
    var error: string
    var resendCooldown: int
    var timeLeft: int
    var resendSuccess: bool
    var location: Option<Navigation>

    ghost predicate Valid()
      reads this
    {
      0 <= timeLeft <= CodeLifetime && 0 <= resendCooldown <= CooldownLength
    }

    /** Both counters start full and both run from the first render. */
    constructor ()
      ensures Valid()
      ensures email == "" && otp == "" && error == "" && !resendSuccess && location == None
      ensures resendCooldown == CooldownLength && timeLeft == CodeLifetime
    {
      email, otp, error := "", "", "";
      resendCooldown, timeLeft := CooldownLength, CodeLifetime;
      resendSuccess, location := false, None;
    }

    /** The mount effect: the e-mail comes from the navigation state; without
        one (absent or empty) the page leaves for /forgot-password. */
    method Mount(stateEmail: string)
      requires Valid()
      modifies this
      ensures Valid()
      ensures stateEmail != "" ==> email == stateEmail && location == old(location)
      ensures stateEmail == "" ==> email == old(email) && location == Some(Navigation("/forgot-password", "", ""))
      ensures otp == old(otp) && error == old(error) && timeLeft == old(timeLeft) && resendCooldown == old(resendCooldown)
      ensures resendSuccess == old(resendSuccess)
    {
      if stateEmail != "" {
        email := stateEmail;
      } else {
        location := Some(Navigation("/forgot-password", "", ""));
      }
    }

    method EnterCode(code: string)
      requires Valid()
      modifies this
      ensures Valid() && otp == code
      ensures email == old(email) && error == old(error) && location == old(location)
      ensures timeLeft == old(timeLeft) && resendCooldown == old(resendCooldown)
      ensures resendSuccess == old(resendSuccess)
    {
      otp := code;
    }

    /** One second of the cooldown interval: it runs while positive. */
    method TickCooldown()
      requires Valid()
      modifies this
      ensures Valid()
      ensures resendCooldown == if old(resendCooldown) > 0 then old(resendCooldown) - 1 else 0
      ensures timeLeft == old(timeLeft) && error == old(error) && location == old(location)
      ensures email == old(email) && otp == old(otp) && resendSuccess == old(resendSuccess)
    {
      if resendCooldown > 0 {
        resendCooldown := resendCooldown - 1;
      }
    }

    /** One second of the expiry interval: it runs while positive. */
    method TickExpiry()
      requires Valid()
      modifies this
      ensures Valid()
      ensures timeLeft == if old(timeLeft) > 0 then old(timeLeft) - 1 else 0
      ensures resendCooldown == old(resendCooldown) && error == old(error) && location == old(location)
      ensures email == old(email) && otp == old(otp) && resendSuccess == old(resendSuccess)
    {
      if timeLeft > 0 {
        timeLeft := timeLeft - 1;
      }
    }

    /** The Verify button is disabled once the time is up. */
    predicate VerifyEnabled()
      reads this
      ensures Valid() ==> (VerifyEnabled() <==> timeLeft > 0)
    {
      timeLeft != 0
    }

    /** The Resend button is disabled while the cooldown runs. */
    predicate ResendEnabled()
      reads this
      ensures Valid() ==> (ResendEnabled() <==> resendCooldown == 0)
    {
      resendCooldown <= 0
    }

    /** `handleSubmit`: an empty code sets an error and sends nothing; a
        verified code moves to /reset-password carrying the e-mail and the code. */
    method Submit(outcome: Outcome<()>) returns (sent: bool)
      requires Valid()
      modifies this
      ensures Valid()
      ensures sent <==> old(VerifyEnabled()) && old(otp) != ""
      ensures old(VerifyEnabled()) && old(otp) == "" ==> error == "Please enter the OTP."
      ensures sent && outcome.Success? ==> location == Some(Navigation("/reset-password", old(email), old(otp))) && error == ""
      ensures sent && outcome.Failure? ==>
        error == (if outcome.response.Some? then ServerErrorOr(outcome.response, "Invalid OTP.") else "Network error.")
      ensures !(sent && outcome.Success?) ==> location == old(location)
      ensures !old(VerifyEnabled()) ==> error == old(error)
      ensures email == old(email) && otp == old(otp) && timeLeft == old(timeLeft) && resendCooldown == old(resendCooldown)
      ensures resendSuccess == old(resendSuccess)
    {
      if !VerifyEnabled() {
        return false;
      }
      if otp == "" {
        error := "Please enter the OTP.";
        return false;
      }
      sent := true;
      error := "";
      match outcome {
        case Success(_) =>
          location := Some(Navigation("/reset-password", email, otp));
        case Failure(response, _, _) =>
          error := if response.Some? then ServerErrorOr(response, "Invalid OTP.") else "Network error.";
      }
    }

    /** `handleResend`: nothing while the cooldown runs; success restarts both
        counters and shows the notice. */
    method Resend(outcome: Outcome<()>) returns (sent: bool)
      requires Valid()
      modifies this
      ensures Valid()
      ensures sent <==> old(resendCooldown) <= 0
      ensures sent && outcome.Success? ==>
        resendCooldown == CooldownLength && timeLeft == CodeLifetime && resendSuccess && error == ""
      ensures sent && outcome.Failure? ==>
        error == ServerErrorOr(outcome.response, "Failed to resend OTP.")
        && resendCooldown == old(resendCooldown) && timeLeft == old(timeLeft)
      ensures !sent ==> error == old(error) && resendCooldown == old(resendCooldown) && timeLeft == old(timeLeft)
      ensures !(sent && outcome.Success?) ==> resendSuccess == old(resendSuccess)
      ensures email == old(email) && otp == old(otp) && location == old(location)
    {
      if resendCooldown > 0 {
        return false;
      }
      sent := true;
      error := "";
      if outcome.Success? {
        resendCooldown, timeLeft := CooldownLength, CodeLifetime;
        resendSuccess := true;
      } else {
        error := ServerErrorOr(outcome.response, "Failed to resend OTP.");
      }
    }

    /** The timer set by a successful resend: three seconds later the notice
        is hidden again. */
    method HideResendNotice()
      requires Valid()
      modifies this
      ensures Valid() && !resendSuccess
      ensures email == old(email) && otp == old(otp) && error == old(error) && location == old(location)
      ensures timeLeft == old(timeLeft) && resendCooldown == old(resendCooldown)
    {
      resendSuccess := false;
    }
  }

  /** The first failing check of the new-password form, in order: a field left
      empty, the two differ, the client policy fails. */
  function ResetFormError(newPassword: string, confirm: string): (r: Option<string>)
    ensures r.None? <==> newPassword != "" && confirm != "" && newPassword == confirm && Acceptable(newPassword)
    ensures newPassword == confirm && newPassword != "" && r.Some? ==> r == ClientValidate(newPassword)
  {
    if newPassword == "" || confirm == "" then Some("Please fill in all fields.")
    else if newPassword != confirm then Some("Passwords do not match.")
    else ClientValidate(newPassword)
  }

  /** The body of the reset request. */
  datatype ResetRequest = ResetRequest(email: string, otp: string, newPassword: string)

  /** The new-password page. */
  class ResetPassword {
    var email: string
    var otp: string
    var newPassword: string
    var confirmPassword: string
    var error: string
    var success: bool
    var location: Option<Navigation>

    constructor ()
      ensures email == "" && otp == "" && newPassword == "" && confirmPassword == ""
      ensures error == "" && !success && location == None
    {
      email, otp, newPassword, confirmPassword, error := "", "", "", "", "";
      success, location := false, None;
    }

    /** The mount effect: both the e-mail and the code must come with the
        navigation; otherwise the page leaves for /forgot-password. */
    method Mount(stateEmail: string, stateOtp: string)
      modifies this
      ensures stateEmail != "" && stateOtp != "" ==> email == stateEmail && otp == stateOtp && location == old(location)
      ensures !(stateEmail != "" && stateOtp != "") ==>
        email == old(email) && otp == old(otp) && location == Some(Navigation("/forgot-password", "", ""))
      ensures newPassword == old(newPassword) && confirmPassword == old(confirmPassword)
      ensures error == old(error) && success == old(success)
    {
      if stateEmail != "" && stateOtp != "" {
        email, otp := stateEmail, stateOtp;
      } else {
        location := Some(Navigation("/forgot-password", "", ""));
      }
    }

    method Fill(newPassword: string, confirm: string)
      modifies this
      ensures this.newPassword == newPassword && confirmPassword == confirm
      ensures email == old(email) && otp == old(otp) && error == old(error) && success == old(success)
      ensures location == old(location)
    {
      this.newPassword, confirmPassword := newPassword, confirm;
    }

    /** `handleSubmit`: the checks run in order and no request is sent unless
        all pass; success is set only after the request succeeds. The form
        is rendered only until then, so it is never submitted afterwards. */
    method Submit(outcome: Outcome<()>) returns (sent: Option<ResetRequest>)
      requires !success
      modifies this
      ensures var check := ResetFormError(old(newPassword), old(confirmPassword));
        && (check.Some? ==> sent == None && error == check.value)
        && (check.None? ==> sent == Some(ResetRequest(old(email), old(otp), old(newPassword))))
      ensures sent.Some? && outcome.Success? ==> success && error == ""
      ensures sent.Some? && outcome.Failure? ==>
        && error == (if outcome.response.Some? then ServerErrorOr(outcome.response, "Failed to reset password.")
                     else "Network error.")
        && success == old(success)
      ensures sent.None? ==> success == old(success)
      ensures email == old(email) && otp == old(otp) && location == old(location)
      ensures newPassword == old(newPassword) && confirmPassword == old(confirmPassword)
    {
      var check := ResetFormError(newPassword, confirmPassword);
      if check.Some? {
        error := check.value;
        return None;
      }
      error := "";
      sent := Some(ResetRequest(email, otp, newPassword));
      match outcome {
        case Success(_) =>
          success := true;
        case Failure(response, _, _) =>
          error := if response.Some? then ServerErrorOr(response, "Failed to reset password.") else "Network error.";
      }
    }

    /** The timer set by a successful reset: three seconds later the page
        leaves for /login. */
    method LeaveAfterReset()
      requires success
      modifies this
      ensures success && location == Some(Navigation("/login", "", ""))
      ensures email == old(email) && otp == old(otp) && error == old(error)
      ensures newPassword == old(newPassword) && confirmPassword == old(confirmPassword)
    {
      location := Some(Navigation("/login", "", ""));
    }
  }

  /** Every password the reset page sends satisfies the back end's policy. */
  lemma SentPasswordsPassBackend(newPassword: string, confirm: string)
    requires ResetFormError(newPassword, confirm).None?
    ensures BackendCheck(newPassword).None?
  {
  }

  /** The code the verify page carries forward is the code the reset page sends. */
  method HandOver(email: string, code: string, newPassword: string) returns (request: Option<ResetRequest>)
    requires email != "" && code != "" && Acceptable(newPassword)
    ensures request == Some(ResetRequest(email, code, newPassword))
  {
    var verify := new VerifyResetOtp();
    verify.Mount(email);
    verify.EnterCode(code);
    var sent := verify.Submit(Success(()));
    var nav := verify.location.value;
    var reset := new ResetPassword();
    reset.Mount(nav.email, nav.otp);
    reset.Fill(newPassword, newPassword);
    request := reset.Submit(Success(()));
  }
}
