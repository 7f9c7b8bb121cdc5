/** The user manager and the user-type choices of `App_Authentication/models.py`. */
module UserModels {
  import opened Wrappers
  import opened Text

  /** A value passed for a keyword field. Only the `True` singleton passes an
      `is True` test; `1` or the string "True" are other values. */
  datatype PyValue = PyTrue | PyFalse | PyOther(repr: string)

  /** The user a manager saves: its e-mail, the password it was given (None
      for an unusable password) and the extra fields. */
  datatype NewUser = NewUser(email: string, password: Option<string>, extraFields: map<string, PyValue>)

  /** The stored values of `UserType.USER_TYPE_CHOICES`. */
  const UserTypeChoices: seq<string> := ["admin", "teacher", "student"]

  function IsUserType(s: string): (r: bool)
    ensures r <==> s == "admin" || s == "teacher" || s == "student"
  {
    s in UserTypeChoices
  }

  const EmailRequired: string := "The Email field must be set"
  const StaffRequired: string := "Superuser must have is_staff=True."
  const SuperuserRequired: string := "Superuser must have is_superuser=True."

  /** Splits an address at its last '@' (`rsplit('@', 1)`): the text before
      it and the text after it, or None when there is no '@'. */
  function SplitAddress(s: string): (r: Option<(string, string)>)
    ensures r.None? <==> '@' !in s
    ensures r.Some? ==> s == r.value.0 + "@" + r.value.1 && '@' !in r.value.1
    decreases |s|
  {
    if s == [] then None
    else if s[|s| - 1] == '@' then Some((s[..|s| - 1], []))
    else
      var front := SplitAddress(s[..|s| - 1]);
      assert s == s[..|s| - 1] + [s[|s| - 1]];
      match front
      case None => None
      case Some((local, domain)) => Some((local, domain + [s[|s| - 1]]))
  }

  /** The last '@' of an address is the one after its local part when the
      domain holds none. */
  lemma {:induction false} SplitAddressOf(local: string, domain: string)
    requires '@' !in domain
    ensures SplitAddress(local + "@" + domain) == Some((local, domain))
    decreases |domain|
  {
    var s := local + "@" + domain;
    if domain == [] {
      assert s[..|s| - 1] == local;
    } else {
      var init := domain[..|domain| - 1];
      assert s[..|s| - 1] == local + "@" + init;
      assert s[|s| - 1] == domain[|domain| - 1];
      assert '@' !in init by {
        forall i | 0 <= i < |init| ensures init[i] != '@' { assert init[i] == domain[i]; }
      }
      SplitAddressOf(local, init);
      assert init + [domain[|domain| - 1]] == domain;
    }
  }

  /** `BaseUserManager.normalize_email`: when the stripped address holds an
      '@', it is rebuilt from the text before the last '@' and the lower-cased
      text after it; an address without '@' is kept exactly as given. */
  function NormalizeEmail(email: string): (r: string)
    ensures '@' !in Strip(email) ==> r == email
    ensures '@' in Strip(email) ==> '@' in r && |r| == |Strip(email)|
  {
    match SplitAddress(Strip(email))
    case None => email
    case Some((local, domain)) =>
      assert (local + "@" + ToLower(domain))[|local|] == '@';
      local + "@" + ToLower(domain)
  }

  /** On an address without surrounding white space, normalising keeps the
      local part, '@' included, and lower-cases the domain. */
  lemma NormalizeEmailOfAddress(local: string, domain: string)
    requires '@' !in domain
    requires local == [] || !IsPySpace(local[0])
    requires domain == [] || !IsPySpace(domain[|domain| - 1])
    ensures NormalizeEmail(local + "@" + domain) == local + "@" + ToLower(domain)
  {
    var s := local + "@" + domain;
    assert s[0] == if local == [] then '@' else local[0];
    assert s[|s| - 1] == if domain == [] then '@' else domain[|domain| - 1];
    StripOfStripped(s);
    SplitAddressOf(local, domain);
  }

  /** A normalised address is its own normal form. */
  lemma NormalizeEmailIdempotent(email: string)
    ensures NormalizeEmail(NormalizeEmail(email)) == NormalizeEmail(email)
  {
    var s := Strip(email);
    match SplitAddress(s)
    case None =>
    case Some((local, domain)) =>
      var lowered := ToLower(domain);
      assert local != [] ==> local[0] == s[0];
      assert '@' !in lowered by {
        forall i | 0 <= i < |lowered| ensures lowered[i] != '@' {
          assert domain[i] != '@';
        }
      }
      if domain != [] {
        assert domain[|domain| - 1] == s[|s| - 1];
        assert lowered[|lowered| - 1] == LowerChar(domain[|domain| - 1]);
      }
      NormalizeEmailOfAddress(local, lowered);
      ToLowerIdempotent(domain);
  }

  /** `create_user`: a missing or empty e-mail raises before anything is built;
      otherwise the user is saved with the normalised e-mail and the given
      password and fields. */
  method CreateUser(email: Option<string>, password: Option<string>, extraFields: map<string, PyValue>)
    returns (r: Result<NewUser, string>)
    ensures r.Err? <==> email.None? || email.value == ""
    ensures r.Err? ==> r.error == EmailRequired
    ensures r.Ok? ==> r.value == NewUser(NormalizeEmail(email.value), password, extraFields)
  {
    if email.None? || email.value == "" {
      return Err(EmailRequired);
    }
    r := Ok(NewUser(NormalizeEmail(email.value), password, extraFields));
  }

  /** The fields `create_superuser` passes on: `is_staff`, `is_superuser` and
      `is_active` are set to True where absent; everything given is kept. */
  function SuperuserFields(extraFields: map<string, PyValue>): (fields: map<string, PyValue>)
    ensures fields.Keys == extraFields.Keys + {"is_staff", "is_superuser", "is_active"}
    ensures forall k :: k in extraFields ==> fields[k] == extraFields[k]
    ensures "is_staff" !in extraFields ==> fields["is_staff"] == PyTrue
    ensures "is_superuser" !in extraFields ==> fields["is_superuser"] == PyTrue
    ensures "is_active" !in extraFields ==> fields["is_active"] == PyTrue
  {
    var staff := if "is_staff" in extraFields then extraFields else extraFields["is_staff" := PyTrue];
    var superuser := if "is_superuser" in staff then staff else staff["is_superuser" := PyTrue];
    if "is_active" in superuser then superuser else superuser["is_active" := PyTrue]
  }

  /** `create_superuser`: `is_staff`, `is_superuser` and `is_active` default to
      True only when absent; an explicit `is_staff` that is not True raises
      first, then an `is_superuser` that is not True; then the user is created
      through `create_user` with the adjusted fields. */
  method CreateSuperuser(email: Option<string>, password: Option<string>, extraFields: map<string, PyValue>)
    returns (r: Result<NewUser, string>)
    ensures ("is_staff" in extraFields && extraFields["is_staff"] != PyTrue) ==> r == Err(StaffRequired)
    ensures (("is_staff" !in extraFields || extraFields["is_staff"] == PyTrue)
             && "is_superuser" in extraFields && extraFields["is_superuser"] != PyTrue) ==> r == Err(SuperuserRequired)
    ensures (("is_staff" !in extraFields || extraFields["is_staff"] == PyTrue)
             && ("is_superuser" !in extraFields || extraFields["is_superuser"] == PyTrue)
             && (email.None? || email.value == "")) ==> r == Err(EmailRequired)
    ensures r.Ok? <==> (("is_staff" !in extraFields || extraFields["is_staff"] == PyTrue)
                        && ("is_superuser" !in extraFields || extraFields["is_superuser"] == PyTrue)
                        && email.Some? && email.value != "")
    ensures r.Ok? ==>
      && r.value.email == NormalizeEmail(email.value) && r.value.password == password
      && r.value.extraFields == SuperuserFields(extraFields)
      && r.value.extraFields["is_staff"] == PyTrue && r.value.extraFields["is_superuser"] == PyTrue
  {
    var fields := SuperuserFields(extraFields);
    if fields["is_staff"] != PyTrue {
      return Err(StaffRequired);
    }
    if fields["is_superuser"] != PyTrue {
      return Err(SuperuserRequired);
    }
    r := CreateUser(email, password, fields);
  }

  /** An explicit `is_active=False` survives, and `is_staff=1` is refused. */
  method SuperuserExamples() returns (inactive: Result<NewUser, string>, numeric: Result<NewUser, string>)
    ensures inactive.Ok? && "is_active" in inactive.value.extraFields
    ensures inactive.value.extraFields["is_active"] == PyFalse
    ensures numeric == Err(StaffRequired)
  {
    inactive := CreateSuperuser(Some("root@lms.io"), None, map["is_active" := PyFalse]);
    numeric := CreateSuperuser(Some("root@lms.io"), None, map["is_staff" := PyOther("1")]);
  }
}
