/** The account views of `App_Authentication/views.py`: registration held as
    a pending record until its one-time code is verified, login, and the
    password-reset flow with a code stored on the user. The clock is integer
    seconds, the random code is an argument, and the outcome of sending the
    e-mail is an argument. */
module Accounts {
  import opened Wrappers
  import opened Text
  import opened PasswordPolicy
  import opened UserModels

  /** A code is accepted for 600 seconds; a new one is sent at most every 60. */
  const OtpLifetime: int := 600
  const ResendCooldown: int := 60

  /** `make_password(plain)`, kept abstract: two hashes match exactly when their plain texts do. */
  datatype Hash = Hashed(plain: string)

  /** A `TemporaryRegistration` row. */
  datatype PendingRegistration = PendingRegistration(passwordHash: Hash, userType: string, otp: string,
                                                     otpCreatedAt: Option<int>)

  /** A user row with its user type (if any), the profile's full name and the reset code. */
  datatype UserRecord = UserRecord(passwordHash: Hash, userType: Option<string>, fullName: string,
                                   otp: Option<string>, otpCreatedAt: Option<int>)

  datatype Body =
    | ErrorBody(error: string)
    | MessageBody(message: string)
    | Validation(errors: seq<FieldError>)
    | Registered(message: string, email: string)
    | Account(email: string, role: string, message: string)
      /** An exception the view does not catch: the framework answers 500. */
    | Crash

  datatype Response = Response(status: int, body: Body)

  datatype OtpVerdict = OtpOk | OtpMismatch | OtpExpired

  /** The checks shared by the verify and reset views, in their order: a code
      that differs from the stored one (or no stored code) is a mismatch; a
      matching code older than the lifetime is expired; without a timestamp
      there is no expiry. */
  function CheckOtp(stored: Option<string>, createdAt: Option<int>, code: string, now: int): (v: OtpVerdict)
    ensures v == OtpOk <==> (stored == Some(code) && (createdAt.None? || now - createdAt.value <= OtpLifetime))
    ensures v == OtpExpired ==> stored == Some(code)
  {
    if stored != Some(code) then OtpMismatch
    else if createdAt.Some? && now - createdAt.value > OtpLifetime then OtpExpired
    else OtpOk
  }

  /** A code is still accepted at exactly 600 seconds and expired one second later. */
  lemma LifetimeBoundary(code: string, t: int)
    ensures CheckOtp(Some(code), Some(t), code, t + OtpLifetime) == OtpOk
    ensures CheckOtp(Some(code), Some(t), code, t + OtpLifetime + 1) == OtpExpired
  {
  }

  /** A wrong code is reported as wrong however old it is: the mismatch check comes first. */
  lemma MismatchBeforeExpiry(stored: string, createdAt: Option<int>, code: string, now: int)
    requires stored != code
    ensures CheckOtp(Some(stored), createdAt, code, now) == OtpMismatch
  {
  }

  /** Once accepted, a code stays accepted at every earlier moment after it was sent. */
  lemma AcceptedEarlier(stored: Option<string>, createdAt: Option<int>, code: string, now: int, earlier: int)
    requires CheckOtp(stored, createdAt, code, now) == OtpOk && earlier <= now
    ensures CheckOtp(stored, createdAt, code, earlier) == OtpOk
  {
  }

  /** A cleared code (after a password reset) matches nothing. */
  lemma ClearedOtpMatchesNothing(code: string, now: int)
    ensures CheckOtp(None, None, code, now) == OtpMismatch
  {
  }

  /** The resend views refuse while fewer than 60 seconds have passed: until
      the moment the cooldown after the last code ends. */
  predicate CooldownBlocks(createdAt: int, now: int): (b: bool)
    ensures b <==> now < createdAt + ResendCooldown
  {
    now - createdAt < ResendCooldown
  }

  /** `User.objects.filter(email__iexact=...)`, on ASCII case: an address
      stored as given or in lower case is found. */
  predicate EmailTaken(users: map<string, UserRecord>, email: string): (t: bool)
    ensures email in users ==> t
    ensures ToLower(email) in users ==> t
  {
    ToLowerIdempotent(email);
    exists e :: e in users && ToLower(e) == ToLower(email)
  }

  /** The two lookups of the registration serializer: the exact one of the
      unique column, then `validate_email`'s case-insensitive one. */
  function EmailUseOf(users: map<string, UserRecord>, email: string): (u: EmailUse)
    ensures u == Unused <==> !EmailTaken(users, email)
    ensures u == StoredAsIs <==> email in users
  {
    if email in users then
      assert ToLower(email) == ToLower(email);
      StoredAsIs
    else if EmailTaken(users, email) then StoredInOtherCase
    else Unused
  }

  /** Registering an address again answers with the e-mail field's error
      alone in first place: the unique column's message for the same spelling,
      `validate_email`'s for a spelling that differs only in case. */
  lemma DuplicateEmailMessage(users: map<string, UserRecord>, req: RegisterRequest)
    requires EmailTaken(users, req.email)
    ensures var v := ValidateRegistration(req, EmailUseOf(users, req.email));
      && v.Err?
      && (req.email in users ==> v.error[0] == FieldError("email", UniqueEmailMessage))
      && (req.email !in users ==> v.error[0] == FieldError("email", "A user with that email already exists."))
  {
    var use := EmailUseOf(users, req.email);
    var first := EmailErrors(use);
    var errors := first + PasswordErrors(req.password) + ConfirmErrors(req.passwordConfirm) + TypeErrors(req.userType);
    assert first != [] && errors[0] == first[0];
    assert ValidateRegistration(req, use) == Err(errors);
  }

  /** The profile's default full name: the e-mail text before the first '@'. */
  function DefaultFullName(email: string): (r: string)
    ensures r <= email && '@' !in r
    ensures |r| < |email| ==> email[|r|] == '@'
  {
    Before(email, '@')
  }

  /** The name is the local part of an address (`ann@lms.io` gives `ann`),
      whatever the domain holds, further '@' included. */
  lemma DefaultFullNameOfAddress(local: string, domain: string)
    requires '@' !in local
    ensures DefaultFullName(local + "@" + domain) == local
  {
    SplitAtFirst(local, '@', domain);
    assert local + ['@'] + domain == local + "@" + domain;
  }

  /** Every registration in the map carries the time its code was sent. */
  ghost predicate Stamped(pending: map<string, PendingRegistration>) {
    forall e :: e in pending ==> pending[e].otpCreatedAt.Some?
  }

  /** Storing a record with a time keeps every record stamped. */
  lemma StampedUpdate(pending: map<string, PendingRegistration>, email: string, record: PendingRegistration)
    requires Stamped(pending) && record.otpCreatedAt.Some?
    ensures Stamped(pending[email := record])
  {
  }

  const MailFailed: Response := Response(500, ErrorBody("Failed to send OTP email"))

  class AuthService {
    /** Pending registrations by e-mail: at most one per address. */
    var pending: map<string, PendingRegistration>
    /** Users by e-mail. */
    var users: map<string, UserRecord>

    /** Every stored registration carries the time its code was sent. */
    ghost predicate Valid()
      reads this
    {
      Stamped(pending)
    }

    constructor ()
      ensures Valid() && pending == map[] && users == map[]
    {
      pending := map[];
      users := map[];
    }

    /** `RegisterView.post`: a valid request stores (or overwrites) the pending
        record for the address, with the hash of the stripped password and a
        fresh code and time; the mail is sent after the record is stored. */
    method Register(req: RegisterRequest, otp: string, now: int, mailOk: bool) returns (resp: Response)
      requires Valid()
      modifies this
      ensures Valid() && users == old(users)
      ensures var v := ValidateRegistration(req, EmailUseOf(old(users), req.email));
        && (v.Err? ==> resp == Response(400, Validation(v.error)) && pending == old(pending))
        && (v.Ok? ==> pending == old(pending)[req.email := PendingRegistration(Hashed(Strip(req.password)), req.userType, otp, Some(now))])
        && (v.Ok? ==> resp == if mailOk then Response(200, Registered("OTP sent to your email. Please verify.", req.email))
                              else MailFailed)
    {
      var v := ValidateRegistration(req, EmailUseOf(users, req.email));
      if v.Err? {
        return Response(400, Validation(v.error));
      }
      Store(req.email, PendingRegistration(Hashed(Strip(req.password)), req.userType, otp, Some(now)));
      if !mailOk {
        return MailFailed;
      }
      resp := Response(200, Registered("OTP sent to your email. Please verify.", req.email));
    }

    /** Stores (or overwrites) the pending record of an address. */
    method Store(email: string, record: PendingRegistration)
      requires Valid() && record.otpCreatedAt.Some?
      modifies this
      ensures Valid() && users == old(users)
      ensures pending == old(pending)[email := record]
    {
      StampedUpdate(pending, email, record);
      pending := pending[email := record];
    }

    /** `VerifyOTPView.post`: the code is read through its field (stripped,
        blank or longer than 6 refused); then missing record, wrong code and
        expired code are refused in that order; otherwise the user, its type and its profile are
        created and the pending record removed. Creating a user whose address
        already exists fails the unique constraint. */
    method VerifyOtp(email: string, code: string, now: int) returns (resp: Response)
      requires Valid()
      modifies this
      ensures Valid()
      ensures ValidateOtpField(code).Err? ==>
        resp == Response(400, Validation([FieldError("otp", ValidateOtpField(code).error)]))
      ensures ValidateOtpField(code).Ok? && email !in old(pending) ==>
        resp == Response(404, ErrorBody("Invalid email or OTP expired"))
      ensures ValidateOtpField(code).Ok? && email in old(pending) ==>
        var p := old(pending)[email];
        match CheckOtp(Some(p.otp), p.otpCreatedAt, Strip(code), now)
        case OtpMismatch => resp == Response(400, ErrorBody("Invalid OTP"))
        case OtpExpired => resp == Response(400, ErrorBody("OTP has expired"))
        case OtpOk =>
          if email in old(users) then resp == Response(500, ErrorBody("Failed to create user"))
          else resp == Response(201, Account(email, p.userType, "Email verified and account created successfully"))
      ensures resp.status == 201 <==>
        (ValidateOtpField(code).Ok? && email in old(pending) && email !in old(users)
         && CheckOtp(Some(old(pending)[email].otp), old(pending)[email].otpCreatedAt, Strip(code), now) == OtpOk)
      ensures resp.status == 201 ==>
        var p := old(pending)[email];
        && users == old(users)[email := UserRecord(p.passwordHash, Some(p.userType), DefaultFullName(email), None, None)]
        && pending == old(pending) - {email}
      ensures resp.status != 201 ==> users == old(users) && pending == old(pending)
    {
      var field := ValidateOtpField(code);
      if field.Err? {
        return Response(400, Validation([FieldError("otp", field.error)]));
      }
      if email !in pending {
        return Response(404, ErrorBody("Invalid email or OTP expired"));
      }
      var p := pending[email];
      var verdict := CheckOtp(Some(p.otp), p.otpCreatedAt, field.value, now);
      if verdict == OtpMismatch {
        return Response(400, ErrorBody("Invalid OTP"));
      }
      if verdict == OtpExpired {
        return Response(400, ErrorBody("OTP has expired"));
      }
      if email in users {
        return Response(500, ErrorBody("Failed to create user"));
      }
      users := users[email := UserRecord(p.passwordHash, Some(p.userType), DefaultFullName(email), None, None)];
      pending := pending - {email};
      resp := Response(201, Account(email, p.userType, "Email verified and account created successfully"));
    }

    /** `ResendOTPView.post`: refused without a record and within the cooldown;
        otherwise a new code and time replace the old ones before the mail is
        sent. A record without a timestamp makes the subtraction raise. */
    method ResendOtp(email: string, otp: string, now: int, mailOk: bool) returns (resp: Response)
      requires Valid()
      modifies this
      ensures Valid() && users == old(users)
      ensures email !in old(pending) ==> resp == Response(404, ErrorBody("Registration request not found"))
      ensures email in old(pending) ==>
        var p := old(pending)[email];
        if CooldownBlocks(p.otpCreatedAt.value, now) then
          resp == Response(429, ErrorBody("Please wait before resending OTP")) && pending == old(pending)
        else
          && pending == old(pending)[email := p.(otp := otp, otpCreatedAt := Some(now))]
          && resp == if mailOk then Response(200, MessageBody("OTP resent successfully")) else MailFailed
      ensures email !in old(pending) ==> pending == old(pending)
    {
      if email !in pending {
        return Response(404, ErrorBody("Registration request not found"));
      }
      var p := pending[email];
      match p.otpCreatedAt {
        case None =>
          // unreachable from states these views build (see Valid)
          assert false;
          return Response(500, Crash);
        case Some(t) =>
          if CooldownBlocks(t, now) {
            return Response(429, ErrorBody("Please wait before resending OTP"));
          }
      }
      StampedUpdate(pending, email, p.(otp := otp, otpCreatedAt := Some(now)));
      pending := pending[email := p.(otp := otp, otpCreatedAt := Some(now))];
      if !mailOk {
        return MailFailed;
      }
      resp := Response(200, MessageBody("OTP resent successfully"));
    }

    /** `LoginView.post`: a blank password is refused by its field; otherwise
        the stripped password must match a user; the role is the user's type,
        or "student" when the user has none. */
    method Login(email: string, password: string) returns (resp: Response)
      ensures Strip(password) == "" ==> resp == Response(400, Validation([FieldError("password", BlankMessage)]))
      ensures Strip(password) != "" && email in users && users[email].passwordHash == Hashed(Strip(password)) ==>
        resp == Response(200, Account(email, users[email].userType.GetOr("student"), "Login successful"))
      ensures Strip(password) != "" && !(email in users && users[email].passwordHash == Hashed(Strip(password))) ==>
        resp == Response(401, ErrorBody("Invalid email or password"))
    {
      var field := CharField(password);
      if field.Err? {
        return Response(400, Validation([FieldError("password", field.error)]));
      }
      if email !in users || users[email].passwordHash != Hashed(field.value) {
        return Response(401, ErrorBody("Invalid email or password"));
      }
      var role := users[email].userType.GetOr("student");
      resp := Response(200, Account(email, role, "Login successful"));
    }

    /** `ForgotPasswordView.post`: stores a new code and time on the user, then mails it. */
    method ForgotPassword(email: string, otp: string, now: int, mailOk: bool) returns (resp: Response)
      requires Valid()
      modifies this
      ensures Valid() && pending == old(pending)
      ensures email !in old(users) ==>
        resp == Response(404, ErrorBody("User with this email does not exist")) && users == old(users)
      ensures email in old(users) ==>
        && users == old(users)[email := old(users)[email].(otp := Some(otp), otpCreatedAt := Some(now))]
        && resp == if mailOk then Response(200, MessageBody("OTP sent to your email.")) else MailFailed
    {
      if email !in users {
        return Response(404, ErrorBody("User with this email does not exist"));
      }
      users := users[email := users[email].(otp := Some(otp), otpCreatedAt := Some(now))];
      if !mailOk {
        return MailFailed;
      }
      resp := Response(200, MessageBody("OTP sent to your email."));
    }

    /** `VerifyResetOTPView.post`: the same checks as the reset, and no change. */
    method VerifyResetOtp(email: string, code: string, now: int) returns (resp: Response)
      ensures email !in users ==> resp == Response(404, ErrorBody("User not found"))
      ensures email in users ==>
        match CheckOtp(users[email].otp, users[email].otpCreatedAt, code, now)
        case OtpMismatch => resp == Response(400, ErrorBody("Invalid OTP"))
        case OtpExpired => resp == Response(400, ErrorBody("OTP has expired"))
        case OtpOk => resp == Response(200, MessageBody("OTP verified successfully"))
    {
      if email !in users {
        return Response(404, ErrorBody("User not found"));
      }
      var u := users[email];
      var verdict := CheckOtp(u.otp, u.otpCreatedAt, code, now);
      if verdict == OtpMismatch {
        return Response(400, ErrorBody("Invalid OTP"));
      }
      if verdict == OtpExpired {
        return Response(400, ErrorBody("OTP has expired"));
      }
      resp := Response(200, MessageBody("OTP verified successfully"));
    }

    /** `ResetPasswordView.post`: after the same checks, sets the password and
        clears the code and its time, so the code cannot be used again. */
    method ResetPassword(email: string, code: string, newPassword: string, now: int) returns (resp: Response)
      requires Valid()
      modifies this
      ensures Valid() && pending == old(pending)
      ensures email !in old(users) ==> resp == Response(404, ErrorBody("User not found"))
      ensures email in old(users) ==>
        var u := old(users)[email];
        match CheckOtp(u.otp, u.otpCreatedAt, code, now)
        case OtpMismatch => resp == Response(400, ErrorBody("Invalid OTP"))
        case OtpExpired => resp == Response(400, ErrorBody("OTP has expired"))
        case OtpOk =>
          && resp == Response(200, MessageBody("Password reset successfully. Please login with your new password."))
          && users == old(users)[email := u.(passwordHash := Hashed(newPassword), otp := None, otpCreatedAt := None)]
      ensures resp.status != 200 ==> users == old(users)
      ensures resp.status == 200 ==>
        && email in users
        && forall c, t :: CheckOtp(users[email].otp, users[email].otpCreatedAt, c, t) == OtpMismatch
    {
      if email !in users {
        return Response(404, ErrorBody("User not found"));
      }
      var u := users[email];
      var verdict := CheckOtp(u.otp, u.otpCreatedAt, code, now);
      if verdict == OtpMismatch {
        return Response(400, ErrorBody("Invalid OTP"));
      }
      if verdict == OtpExpired {
        return Response(400, ErrorBody("OTP has expired"));
      }
      users := users[email := u.(passwordHash := Hashed(newPassword), otp := None, otpCreatedAt := None)];
      resp := Response(200, MessageBody("Password reset successfully. Please login with your new password."));
    }

    /** `ResendForgotPasswordOTPView.post`: the cooldown applies only when the
        user has a code time; otherwise a new code is stored and mailed. */
    method ResendForgotOtp(email: string, otp: string, now: int, mailOk: bool) returns (resp: Response)
      requires Valid()
      modifies this
      ensures Valid() && pending == old(pending)
      ensures email !in old(users) ==> resp == Response(404, ErrorBody("User not found")) && users == old(users)
      ensures email in old(users) ==>
        var u := old(users)[email];
        if u.otpCreatedAt.Some? && CooldownBlocks(u.otpCreatedAt.value, now) then
          resp == Response(429, ErrorBody("Please wait before resending OTP")) && users == old(users)
        else
          && users == old(users)[email := u.(otp := Some(otp), otpCreatedAt := Some(now))]
          && resp == if mailOk then Response(200, MessageBody("OTP resent successfully")) else MailFailed
    {
      if email !in users {
        return Response(404, ErrorBody("User not found"));
      }
      var u := users[email];
      if u.otpCreatedAt.Some? && CooldownBlocks(u.otpCreatedAt.value, now) {
        return Response(429, ErrorBody("Please wait before resending OTP"));
      }
      users := users[email := u.(otp := Some(otp), otpCreatedAt := Some(now))];
      if !mailOk {
        return MailFailed;
      }
      resp := Response(200, MessageBody("OTP resent successfully"));
    }
  }

  /** What the steps of a sign-up check, for a password that conforms to the
      policy once stripped and a generated code. */
  lemma SignUpAccepted(email: string, password: string, userType: string, otp: string, now: int)
    requires Acceptable(Strip(password)) && userType in UserTypeChoices
    requires |otp| == 6 && forall i :: 0 <= i < |otp| ==> IsAlnum(otp[i])
    ensures ValidateRegistration(RegisterRequest(email, password, password, userType), EmailUseOf(map[], email)).Ok?
    ensures ValidateOtpField(otp) == Ok(otp) && Strip(otp) == otp
    ensures CheckOtp(Some(otp), Some(now), otp, now + OtpLifetime) == OtpOk
    ensures Strip(password) != ""
  {
    PaddedOtpAccepted([], otp, []);
    assert [] + otp + [] == otp;
  }

  /** A sign-up: register, then verify the mailed code when its lifetime is
      just over; the user then exists with the hash of the stripped password
      and the chosen type, and no pending row is left. The code is the
      generator's: six ASCII letters or digits. */
  method SignUp(email: string, password: string, userType: string, otp: string, now: int)
    returns (service: AuthService)
    requires Acceptable(Strip(password)) && userType in UserTypeChoices
    requires |otp| == 6 && forall i :: 0 <= i < |otp| ==> IsAlnum(otp[i])
    ensures fresh(service) && service.Valid()
    ensures email in service.users && service.users[email].passwordHash == Hashed(Strip(password))
    ensures service.users[email].userType == Some(userType)
    ensures email !in service.pending
  {
    SignUpAccepted(email, password, userType, otp, now);
    service := new AuthService();
    var registered := service.Register(RegisterRequest(email, password, password, userType), otp, now, true);
    var verified := service.VerifyOtp(email, otp, now + OtpLifetime);
  }

  /** A whole sign-up, then a login with the same password as the chosen
      role; a second verify finds no record. */
  method SignUpThenLogin(email: string, password: string, userType: string, otp: string, now: int)
    returns (login: Response, again: Response)
    requires Acceptable(Strip(password)) && userType in UserTypeChoices
    requires |otp| == 6 && forall i :: 0 <= i < |otp| ==> IsAlnum(otp[i])
    ensures login == Response(200, Account(email, userType, "Login successful"))
    ensures again == Response(404, ErrorBody("Invalid email or OTP expired"))
  {
    var service := SignUp(email, password, userType, otp, now);
    assert ValidateOtpField(otp).Ok? by {
      PaddedOtpAccepted([], otp, []);
      assert [] + otp + [] == otp;
    }
    assert Strip(password) != "";
    login := service.Login(email, password);
    again := service.VerifyOtp(email, otp, now + OtpLifetime + 1);
  }

}
