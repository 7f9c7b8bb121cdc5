/** The sign-up page (`Register.jsx`): a registration form with client-side
    checks, then a code form with a 600-second expiry display, a 60-second
    resend cooldown, verification and a role-based redirect. */
module RegisterPage {
  import opened Wrappers
  import opened Text
  import opened PasswordPolicy
  import opened AuthClient
  import Accounts
  import opened UserModels

  const CodeLifetime: int := 600
  const CooldownLength: int := 60

  /** The fields of a successful verification answer the page reads. */
  datatype VerifyAnswer = VerifyAnswer(token: Option<string>, role: string, email: string)

  /** The first failing client-side check of the registration form, in order:
      no role chosen, passwords differ, strength expression fails. */
  function RegisterFormError(role: string, password: string, confirm: string): (r: Option<string>)
    ensures r.None? <==> role != "" && password == confirm && RegisterStrength(password)
  {
    if role == "" then Some("Please select an account type.")
    else if password != confirm then Some("Passwords do not match")
    else if !RegisterStrength(password) then Some("Password: 8+ chars, Upper, Lower, Number, Special char.")
    else None
  }

  class Register {
    var selectedRole: string
    var email: string
    var password: string
    var passwordConfirm: string
    var otpSent: bool
    var otp: string
    var timeLeft: int
    var resendCooldown: int
    var error: string
    var successMsg: string
    var token: Option<string>
    var session: Option<Session>
    var location: Option<string>

    /** Both counters stay within their ranges. */
    ghost predicate Valid()
      reads this
    {
      0 <= timeLeft <= CodeLifetime && 0 <= resendCooldown <= CooldownLength
    }

    constructor ()
      ensures Valid()
      ensures selectedRole == "" && email == "" && password == "" && passwordConfirm == ""
      ensures !otpSent && otp == "" && timeLeft == CodeLifetime && resendCooldown == CooldownLength
      ensures error == "" && successMsg == "" && token == None && session == None && location == None
    {
      selectedRole, email, password, passwordConfirm := "", "", "", "";
      otpSent, otp, timeLeft, resendCooldown := false, "", CodeLifetime, CooldownLength;
      error, successMsg := "", "";
      token, session, location := None, None, None;
    }

    method Fill(role: string, email: string, password: string, confirm: string, otp: string)
      requires Valid()
      modifies this
      ensures Valid()
      ensures selectedRole == role && this.email == email && this.password == password
      ensures passwordConfirm == confirm && this.otp == otp
      ensures otpSent == old(otpSent) && timeLeft == old(timeLeft) && resendCooldown == old(resendCooldown)
      ensures error == old(error) && successMsg == old(successMsg)
      ensures token == old(token) && session == old(session) && location == old(location)
    {
      selectedRole, this.email, this.password, passwordConfirm, this.otp := role, email, password, confirm, otp;
    }

    /** One second of the expiry interval: it runs only after the code was sent
        and only while time is left. */
    method TickExpiry()
      requires Valid()
      modifies this
      ensures Valid()
      ensures timeLeft == if old(otpSent) && old(timeLeft) > 0 then old(timeLeft) - 1 else old(timeLeft)
      ensures resendCooldown == old(resendCooldown) && otpSent == old(otpSent)
      ensures error == old(error) && successMsg == old(successMsg) && location == old(location)
      ensures selectedRole == old(selectedRole) && email == old(email) && password == old(password)
      ensures passwordConfirm == old(passwordConfirm) && otp == old(otp)
      ensures token == old(token) && session == old(session)
    {
      if otpSent && timeLeft > 0 {
        timeLeft := timeLeft - 1;
      }
    }

    /** One second of the cooldown interval, under the same conditions. */
    method TickCooldown()
      requires Valid()
      modifies this
      ensures Valid()
      ensures resendCooldown == if old(otpSent) && old(resendCooldown) > 0 then old(resendCooldown) - 1
                                else old(resendCooldown)
      ensures timeLeft == old(timeLeft) && otpSent == old(otpSent)
      ensures error == old(error) && successMsg == old(successMsg) && location == old(location)
      ensures selectedRole == old(selectedRole) && email == old(email) && password == old(password)
      ensures passwordConfirm == old(passwordConfirm) && otp == old(otp)
      ensures token == old(token) && session == old(session)
    {
      if otpSent && resendCooldown > 0 {
        resendCooldown := resendCooldown - 1;
      }
    }

    /** `handleRegister` (its form is shown until the code is sent): the client
        checks run in order and only then is the request sent, with the role
        lower-cased. Success opens the code form with fresh counters. */
    method SubmitRegistration(outcome: Outcome<()>) returns (sent: Option<RegisterRequest>)
      requires Valid()
      modifies this
      ensures Valid()
      ensures old(otpSent) ==>
        && sent == None && otpSent && error == old(error) && successMsg == old(successMsg)
        && timeLeft == old(timeLeft) && resendCooldown == old(resendCooldown)
      ensures !old(otpSent) ==>
        var check := RegisterFormError(old(selectedRole), old(password), old(passwordConfirm));
        && (check.Some? ==> sent == None && error == check.value && successMsg == "" && !otpSent)
        && (check.None? ==> sent == Some(RegisterRequest(old(email), old(password), old(passwordConfirm), ToLower(old(selectedRole)))))
        && (check.None? && outcome.Success? ==>
              otpSent && error == "" && successMsg == "OTP sent to " + old(email)
              && timeLeft == CodeLifetime && resendCooldown == CooldownLength)
        && (check.None? && outcome.Failure? ==> !otpSent && error == RegisterErrorText(outcome) && successMsg == "")
      ensures !old(otpSent) && !otpSent ==> timeLeft == old(timeLeft) && resendCooldown == old(resendCooldown)
      ensures email == old(email) && location == old(location) && session == old(session) && token == old(token)
      ensures selectedRole == old(selectedRole) && password == old(password)
      ensures passwordConfirm == old(passwordConfirm) && otp == old(otp)
    {
      if otpSent {
        return None;
      }
      var check := RegisterFormError(selectedRole, password, passwordConfirm);
      if check.Some? {
        error, successMsg := check.value, "";
        return None;
      }
      sent := Some(RegisterRequest(email, password, passwordConfirm, ToLower(selectedRole)));
      if outcome.Success? {
        otpSent, error, successMsg := true, "", "OTP sent to " + email;
        timeLeft, resendCooldown := CodeLifetime, CooldownLength;
      } else {
        error, successMsg := RegisterErrorText(outcome), "";
      }
    }

    /** `handleVerifyOtp` (the Verify button is disabled once the time is up):
        success stores the token if a non-empty one came, stores the session
        and moves to the role's home (at once, where the page waits 1.5
        seconds first); failure shows the server's error or a default. */
    method SubmitCode(outcome: Outcome<VerifyAnswer>) returns (sent: bool)
      requires Valid()
      modifies this
      ensures Valid()
      ensures sent <==> old(otpSent) && old(timeLeft) != 0
      ensures sent && outcome.Success? ==>
        && error == "" && successMsg == "Account created! Redirecting..."
        && token == (if outcome.value.token.Some? && outcome.value.token.value != "" then outcome.value.token else old(token))
        && session == Some(Session(outcome.value.role, outcome.value.email))
        && location == Some(RoleHome(outcome.value.role))
      ensures sent && outcome.Failure? ==>
        error == ServerErrorOr(outcome.response, "Verification failed") && successMsg == old(successMsg)
      ensures !(sent && outcome.Success?) ==> token == old(token) && session == old(session) && location == old(location)
      ensures !sent ==> error == old(error) && successMsg == old(successMsg)
      ensures otpSent == old(otpSent) && timeLeft == old(timeLeft) && resendCooldown == old(resendCooldown)
      ensures selectedRole == old(selectedRole) && email == old(email) && password == old(password)
      ensures passwordConfirm == old(passwordConfirm) && otp == old(otp)
    {
      if !otpSent || timeLeft == 0 {
        return false;
      }
      sent := true;
      match outcome {
        case Success(answer) =>
          var kept := if answer.token.Some? && answer.token.value != "" then answer.token else token;
          error, successMsg, token := "", "Account created! Redirecting...", kept;
          session, location := Some(Session(answer.role, answer.email)), Some(RoleHome(answer.role));
        case Failure(response, _, _) =>
          error := ServerErrorOr(response, "Verification failed");
      }
    }

    /** `handleResendOtp`: nothing happens while the cooldown runs; success
        restarts both counters. */
    method Resend(outcome: Outcome<()>) returns (sent: bool)
      requires Valid()
      modifies this
      ensures Valid()
      ensures sent <==> old(otpSent) && old(resendCooldown) == 0
      ensures sent && outcome.Success? ==>
        error == "" && successMsg == "OTP resent successfully."
        && resendCooldown == CooldownLength && timeLeft == CodeLifetime
      ensures sent && outcome.Failure? ==>
        error == ServerErrorOr(outcome.response, "Resend failed") && successMsg == old(successMsg)
        && resendCooldown == old(resendCooldown) && timeLeft == old(timeLeft)
      ensures !sent ==> error == old(error) && successMsg == old(successMsg)
                        && resendCooldown == old(resendCooldown) && timeLeft == old(timeLeft)
      ensures otpSent == old(otpSent) && location == old(location)
      ensures selectedRole == old(selectedRole) && email == old(email) && password == old(password)
      ensures passwordConfirm == old(passwordConfirm) && otp == old(otp)
      ensures token == old(token) && session == old(session)
    {
      if !otpSent || resendCooldown > 0 {
        return false;
      }
      sent := true;
      error := "";
      if outcome.Success? {
        successMsg := "OTP resent successfully.";
        resendCooldown, timeLeft := CooldownLength, CodeLifetime;
      } else {
        error := ServerErrorOr(outcome.response, "Resend failed");
      }
    }

    /** The "Back to details" button of the code form: the registration form is
        shown again with everything typed so far; the counters stop. */
    method BackToDetails()
      requires Valid()
      modifies this
      ensures Valid() && !otpSent
      ensures selectedRole == old(selectedRole) && email == old(email) && password == old(password)
      ensures passwordConfirm == old(passwordConfirm) && otp == old(otp)
      ensures timeLeft == old(timeLeft) && resendCooldown == old(resendCooldown)
      ensures error == old(error) && successMsg == old(successMsg)
      ensures token == old(token) && session == old(session) && location == old(location)
    {
      otpSent := false;
    }
  }

  /** The back end refuses a password whose only non-alphanumeric characters
      are '_' or '-' for its special-character rule alone. */
  lemma UnderscorePasswordRefused(email: string, password: string, role: string)
    requires IsUserType(role) && LettersDigitsAndDashes(password)
    ensures ValidateRegistration(RegisterRequest(email, password, password, role), Unused)
         == Err([FieldError("password", BackendMessage(HasSpecial))])
  {
    DashesAreNotSpecial(password);
    assert !IsPySpace(password[0]) && !IsPySpace(password[|password| - 1]);
    StripOfStripped(password);
    assert role in UserTypeChoices;
    var e := FieldError("password", BackendMessage(HasSpecial));
    assert [] + [e] + [] + [] == [e];
  }

  /** A single field message is shown as it is. */
  lemma SingleFieldMessage(field: string, msg: string)
    ensures RegisterErrorText<()>(Failure(Some(FieldData([(field, [msg])])), true, "")) == msg
  {
    var entries := [(field, [msg])];
    assert seq(|entries|, i requires 0 <= i < |entries| => entries[i].1) == [[msg]];
    assert Flatten([[msg]]) == [msg];
  }

  /** The page's text for the back end's refusal of such a password is the
      special-character message itself. */
  lemma SpecialRefusalText()
    ensures RegisterErrorText<()>(Failure(Some(AsData(Accounts.Validation([FieldError("password", BackendMessage(HasSpecial))]))), true, ""))
         == BackendMessage(HasSpecial)
  {
    var body := Accounts.Validation([FieldError("password", BackendMessage(HasSpecial))]);
    assert AsData(body) == FieldData([("password", [BackendMessage(HasSpecial)])]);
    SingleFieldMessage("password", BackendMessage(HasSpecial));
  }

  /** A password the strength expression lets through but the back end refuses
      ends on the page with the back end's message. */
  method UnderscorePasswordOnPage(email: string, password: string) returns (shown: string)
    requires LettersDigitsAndDashes(password)
    ensures shown == BackendMessage(HasSpecial)
  {
    var page := new Register();
    page.Fill("Student", email, password, password, "");
    DashesPassRegisterOnly(password);
    assert RegisterFormError("Student", password, password) == None;
    UnderscorePasswordRefused(email, password, "student");
    SpecialRefusalText();
    var body := Accounts.Validation([FieldError("password", BackendMessage(HasSpecial))]);
    var sent := page.SubmitRegistration(Failure(Some(AsData(body)), true, ""));
    shown := page.error;
  }
}
