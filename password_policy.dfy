/** The password policy of the registration serializer and its two front-end
    mirrors: the reset page's `validatePassword` (same rules, same order,
    shorter messages) and the registration page's strength expression. */
module PasswordPolicy {
  import opened Wrappers
  import opened Text
  import opened UserModels

  /** The five rules, in the order the validators check them. */
  datatype Rule = MinLength | HasUpper | HasLower | HasDigit | HasSpecial

  const Rules: seq<Rule> := [MinLength, HasUpper, HasLower, HasDigit, HasSpecial]

  /** The character class of the special-character rule. */
  const SpecialChars: string := "!@#$%^&*(),.?\":{}|<>"

  predicate IsSpecial(c: char) { c in SpecialChars }

  predicate SomeUpper(p: string) { exists i :: 0 <= i < |p| && IsUpper(p[i]) }
  predicate SomeLower(p: string) { exists i :: 0 <= i < |p| && IsLower(p[i]) }
  predicate SomeDigit(p: string) { exists i :: 0 <= i < |p| && IsDigit(p[i]) }
  predicate SomeSpecial(p: string) { exists i :: 0 <= i < |p| && IsSpecial(p[i]) }

  predicate Holds(r: Rule, p: string) {
    match r
    case MinLength => |p| >= 8
    case HasUpper => SomeUpper(p)
    case HasLower => SomeLower(p)
    case HasDigit => SomeDigit(p)
    case HasSpecial => SomeSpecial(p)
  }

  /** The policy as one statement: at least 8 characters, an A-Z, an a-z, a
      0-9 and one of the special characters. */
  predicate Acceptable(p: string) {
    |p| >= 8 && SomeUpper(p) && SomeLower(p) && SomeDigit(p) && SomeSpecial(p)
  }

  /** `RegisterSerializer.validate_password`: the rule whose error is raised,
      or None when the value is returned. */
  function BackendCheck(p: string): (r: Option<Rule>)
    ensures r.None? <==> Acceptable(p)
    ensures r.Some? ==> exists k :: 0 <= k < |Rules| && Rules[k] == r.value && !Holds(Rules[k], p)
                                    && forall j :: 0 <= j < k ==> Holds(Rules[j], p)
  {
    if |p| < 8 then
      assert Rules[0] == MinLength;
      Some(MinLength)
    else if !SomeUpper(p) then
      assert Rules[1] == HasUpper && Holds(Rules[0], p);
      Some(HasUpper)
    else if !SomeLower(p) then
      assert Rules[2] == HasLower && Holds(Rules[0], p) && Holds(Rules[1], p);
      Some(HasLower)
    else if !SomeDigit(p) then
      assert Rules[3] == HasDigit && Holds(Rules[0], p) && Holds(Rules[1], p) && Holds(Rules[2], p);
      Some(HasDigit)
    else if !SomeSpecial(p) then
      assert Rules[4] == HasSpecial && Holds(Rules[0], p) && Holds(Rules[1], p) && Holds(Rules[2], p)
        && Holds(Rules[3], p);
      Some(HasSpecial)
    else None
  }

  function BackendMessage(r: Rule): string {
    match r
    case MinLength => "Password must be at least 8 characters long."
    case HasUpper => "Password must contain at least one uppercase letter."
    case HasLower => "Password must contain at least one lowercase letter."
    case HasDigit => "Password must contain at least one number."
    case HasSpecial => "Password must contain at least one special character."
  }

  /** The reset page's `validatePassword` messages, one per rule. */
  function ClientMessage(r: Rule): string {
    match r
    case MinLength => "Password must be at least 8 chars long."
    case HasUpper => "Must contain an uppercase letter."
    case HasLower => "Must contain a lowercase letter."
    case HasDigit => "Must contain a number."
    case HasSpecial => "Must contain a special character."
  }

  /** The reset page's `validatePassword`: null, or the first failing message. */
  function ClientValidate(p: string): (r: Option<string>)
    ensures r.None? <==> Acceptable(p)
  {
    if |p| < 8 then Some("Password must be at least 8 chars long.")
    else if !SomeUpper(p) then Some("Must contain an uppercase letter.")
    else if !SomeLower(p) then Some("Must contain a lowercase letter.")
    else if !SomeDigit(p) then Some("Must contain a number.")
    else if !SomeSpecial(p) then Some("Must contain a special character.")
    else None
  }

  /** The client mirror accepts exactly what the back end accepts, and rejects
      for the same rule: its message is the client wording of the back end's. */
  lemma ClientMirrorsBackend(p: string)
    ensures ClientValidate(p).None? <==> BackendCheck(p).None?
    ensures BackendCheck(p).Some? ==> ClientValidate(p) == Some(ClientMessage(BackendCheck(p).value))
  {
  }

  /** A password made of letters, digits, '_' and '-' only has no special character. */
  lemma {:induction false} NoSpecialAmong(p: string)
    requires forall i :: 0 <= i < |p| ==> IsAlnum(p[i]) || p[i] == '_' || p[i] == '-'
    ensures !SomeSpecial(p)
  {
    forall i | 0 <= i < |p|
      ensures !IsSpecial(p[i])
    {
      if IsSpecial(p[i]) {
        SpecialIsNotAlnum(p[i]);
      }
    }
  }

  lemma SpecialIsNotAlnum(c: char)
    requires IsSpecial(c)
    ensures !IsAlnum(c) && c != '_' && c != '-'
  {
    var k :| 0 <= k < |SpecialChars| && SpecialChars[k] == c;
  }

  /** A password of at least 8 characters with an A-Z, an a-z and a 0-9,
      whose other characters are '_' or '-', at least one of them. */
  predicate LettersDigitsAndDashes(p: string) {
    && |p| >= 8 && SomeUpper(p) && SomeLower(p) && SomeDigit(p)
    && (forall i :: 0 <= i < |p| ==> IsAlnum(p[i]) || p[i] == '_' || p[i] == '-')
    && (exists i :: 0 <= i < |p| && (p[i] == '_' || p[i] == '-'))
  }

  /** '_' and '-' are not in the special class, so such a password fails
      only the last rule. */
  lemma DashesAreNotSpecial(p: string)
    requires LettersDigitsAndDashes(p)
    ensures BackendCheck(p) == Some(HasSpecial)
  {
    NoSpecialAmong(p);
  }

  // ---- The registration page's strength expression ----

  /** The characters a regular-expression `.` does not match. */
  predicate IsLineTerminator(c: char) {
    c == '\n' || c == '\r' || c == '\U{2028}' || c == '\U{2029}'
  }

  predicate SomeNonAlnum(p: string) { exists i :: 0 <= i < |p| && !IsAlnum(p[i]) }

  /** The registration page's anchored strength expression: every character
      matched by `.`, at least 8 of them, and lookaheads for a lower-case
      letter, an upper-case letter, a digit and a character of `[\W_]`, that is
      anything but an ASCII letter or digit. A password it lets through
      lacks, of the back end's rules, at most a special character. */
  predicate RegisterStrength(p: string): (r: bool)
    ensures r && !Acceptable(p) ==> !SomeSpecial(p)
  {
    && (forall i :: 0 <= i < |p| ==> !IsLineTerminator(p[i]))
    && |p| >= 8 && SomeLower(p) && SomeUpper(p) && SomeDigit(p) && SomeNonAlnum(p)
  }

  /** Every password the back end accepts, if it has no line terminator, also
      passes the registration page. */
  lemma BackendAcceptedPassesRegister(p: string)
    requires Acceptable(p)
    requires forall i :: 0 <= i < |p| ==> !IsLineTerminator(p[i])
    ensures RegisterStrength(p)
  {
    var i :| 0 <= i < |p| && IsSpecial(p[i]);
    SpecialIsNotAlnum(p[i]);
  }

  /** The converse fails: the registration page lets a password through
      whose only non-alphanumeric characters are '_' or '-', which the back
      end refuses. */
  lemma DashesPassRegisterOnly(p: string)
    requires LettersDigitsAndDashes(p)
    ensures RegisterStrength(p) && !Acceptable(p)
  {
    DashesAreNotSpecial(p);
    var k :| 0 <= k < |p| && (p[k] == '_' || p[k] == '-');
    assert !IsAlnum(p[k]);
    forall i | 0 <= i < |p| ensures !IsLineTerminator(p[i]) {
      assert IsAlnum(p[i]) || p[i] == '_' || p[i] == '-';
    }
  }

  /** A line break is the reverse case: the back end accepts it, the
      page's `.` does not match it. */
  lemma LineBreakPassesBackendOnly(p: string, k: int)
    requires Acceptable(p) && 0 <= k < |p| && IsLineTerminator(p[k])
    ensures Acceptable(p) && !RegisterStrength(p)
  {
  }

  // ---- Registration serializer ----

  datatype RegisterRequest = RegisterRequest(email: string, password: string,
                                             passwordConfirm: string, userType: string)

  datatype FieldError = FieldError(field: string, message: string)

  /** The message of a `CharField` left blank. */
  const BlankMessage: string := "This field may not be blank."

  /** A serializer `CharField` with its defaults (`trim_whitespace` on,
      `allow_blank` off): a value that is empty after Python's `strip()` is
      refused, any other value continues stripped to the field's own rules. */
  function CharField(value: string): (r: Result<string, string>)
    ensures r.Err? <==> Strip(value) == ""
    ensures r.Err? ==> r.error == BlankMessage
    ensures r.Ok? ==> r.value == Strip(value) && r.value != ""
  {
    var v := Strip(value);
    if v == "" then Err(BlankMessage) else Ok(v)
  }

  /** Whitespace around a value does not reach the field's rules: a padded
      value is read as the value itself. */
  lemma CharFieldIgnoresPadding(front: string, v: string, back: string)
    requires forall i :: 0 <= i < |front| ==> IsPySpace(front[i])
    requires forall i :: 0 <= i < |back| ==> IsPySpace(back[i])
    requires v != [] && !IsPySpace(v[0]) && !IsPySpace(v[|v| - 1])
    ensures CharField(front + v + back) == Ok(v)
  {
    StripPadded(front, v, back);
  }

  /** The error `validate` raises when the two stripped passwords differ. */
  const Mismatch: FieldError := FieldError("password", "Password fields didn't match.")

  /** What the two e-mail lookups find among the users: nothing, the address
      spelled exactly as given, or only a spelling that differs in case. */
  datatype EmailUse = Unused | StoredAsIs | StoredInOtherCase

  /** The message of the `UniqueValidator` that the model's `unique=True`
      e-mail column gives the serializer's e-mail field. */
  const UniqueEmailMessage: string := "user with this email address already exists."

  /** The e-mail field: the `UniqueValidator` (an exact lookup) runs first and
      stops the field; only an address it lets through reaches
      `validate_email` (a case-insensitive lookup). */
  function EmailErrors(use: EmailUse): (e: seq<FieldError>)
    ensures e == [] <==> use == Unused
    ensures use == StoredAsIs ==> e == [FieldError("email", UniqueEmailMessage)]
    ensures use == StoredInOtherCase ==> e == [FieldError("email", "A user with that email already exists.")]
    ensures Mismatch !in e
  {
    match use
    case Unused => []
    case StoredAsIs => [FieldError("email", UniqueEmailMessage)]
    case StoredInOtherCase => [FieldError("email", "A user with that email already exists.")]
  }

  /** The password field: its `CharField`, then `validate_password`. */
  function PasswordErrors(password: string): (e: seq<FieldError>)
    ensures e == [] <==> Acceptable(Strip(password))
    ensures Mismatch !in e
  {
    match CharField(password)
    case Err(m) => [FieldError("password", m)]
    case Ok(p) =>
      match BackendCheck(p)
      case Some(rule) =>
        assert |BackendMessage(rule)| > |Mismatch.message|;
        [FieldError("password", BackendMessage(rule))]
      case None => []
  }

  /** The password confirmation field: its `CharField` alone. */
  function ConfirmErrors(confirm: string): (e: seq<FieldError>)
    ensures e == [] <==> Strip(confirm) != ""
    ensures Mismatch !in e
  {
    match CharField(confirm)
    case Err(m) => [FieldError("password_confirm", m)]
    case Ok(_) => []
  }

  /** The user type field: a `ChoiceField` over the three types. */
  function TypeErrors(userType: string): (e: seq<FieldError>)
    ensures e == [] <==> userType in UserTypeChoices
    ensures Mismatch !in e
  {
    if userType in UserTypeChoices then []
    else [FieldError("user_type", "\"" + userType + "\" is not a valid choice.")]
  }

  /** `RegisterSerializer.is_valid()`: each field is read through its
      `CharField` (stripped, blank refused) and its validators, and the errors
      are collected field by field in the declared order (e-mail taken,
      password, password confirmation, user type); only when all pass does
      `validate` compare the two stripped passwords. `use` is what the e-mail
      lookups find among the users. */
  function ValidateRegistration(req: RegisterRequest, use: EmailUse): (r: Result<RegisterRequest, seq<FieldError>>)
    ensures r.Ok? <==> (use == Unused && Acceptable(Strip(req.password)) && req.userType in UserTypeChoices
                        && Strip(req.password) == Strip(req.passwordConfirm))
    ensures r.Ok? ==> r.value == req.(password := Strip(req.password), passwordConfirm := Strip(req.passwordConfirm))
    ensures r.Err? ==> r.error != []
  {
    var errors := EmailErrors(use) + PasswordErrors(req.password)
                  + ConfirmErrors(req.passwordConfirm) + TypeErrors(req.userType);
    var password := Strip(req.password);
    var confirm := Strip(req.passwordConfirm);
    if errors != [] then Err(errors)
    else if password != confirm then Err([Mismatch])
    else Ok(req.(password := password, passwordConfirm := confirm))
  }

  /** The mismatch is reported alone, and only for requests whose fields are
      otherwise valid. */
  lemma MismatchReportedLast(req: RegisterRequest, use: EmailUse)
    ensures var r := ValidateRegistration(req, use);
      Strip(req.password) != Strip(req.passwordConfirm) ==>
        r.Err? && (r.error == [Mismatch]
                   <==> use == Unused && Acceptable(Strip(req.password)) && Strip(req.passwordConfirm) != ""
                        && req.userType in UserTypeChoices)
  {
    var errors := EmailErrors(use) + PasswordErrors(req.password)
                  + ConfirmErrors(req.passwordConfirm) + TypeErrors(req.userType);
    var r := ValidateRegistration(req, use);
    if errors == [] {
      assert Strip(req.password) != Strip(req.passwordConfirm) ==> r == Err([Mismatch]);
    } else {
      assert r == Err(errors) && Mismatch !in errors;
      assert Mismatch in [Mismatch];
    }
  }


  /** The OTP field of the verify serializer: a `CharField` of at most 6
      characters, the length counted after stripping. */
  function ValidateOtpField(otp: string): (r: Result<string, string>)
    ensures r.Ok? <==> Strip(otp) != "" && |Strip(otp)| <= 6
    ensures r.Ok? ==> r.value == Strip(otp)
    ensures Strip(otp) == "" ==> r == Err(BlankMessage)
  {
    match CharField(otp)
    case Err(m) => Err(m)
    case Ok(v) => if |v| > 6 then Err("Ensure this field has no more than 6 characters.") else Ok(v)
  }

  /** A code of letters and digits, as the generator's six-character codes
      are, copied with spaces around it is read as the code itself. */
  lemma PaddedOtpAccepted(front: string, code: string, back: string)
    requires forall i :: 0 <= i < |front| ==> IsPySpace(front[i])
    requires forall i :: 0 <= i < |back| ==> IsPySpace(back[i])
    requires 0 < |code| <= 6 && forall i :: 0 <= i < |code| ==> IsAlnum(code[i])
    ensures ValidateOtpField(front + code + back) == Ok(code)
  {
    CharFieldIgnoresPadding(front, code, back);
  }
}
