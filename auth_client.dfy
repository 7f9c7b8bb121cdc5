/** What the authentication pages share: the outcome of a call to the auth
    service, the texts they derive from a failure, and the role-based home
    page chosen after login or sign-up. */
module AuthClient {
  import opened Wrappers
  import opened Text
  import Accounts

  /** The JSON body of an error response, as far as the pages look at it. */
  datatype ResponseData =
      /** An object with an `error` key (other keys are not looked at). */
    | ErrorData(error: string)
      /** A serializer error object: each field with its list of messages. */
    | FieldData(entries: seq<(string, seq<string>)>)
      /** A body that is not an object, such as a string. */
    | OtherData

  /** How a service call ended. A failure carries the response when the server
      answered, whether a request went out, and the error's message. */
  datatype Outcome<T> =
    | Success(value: T)
    | Failure(response: Option<ResponseData>, requestSent: bool, message: string)

  /** `data?.error`, with "" standing for a missing or empty value (both falsy). */
  function ErrorOf(data: ResponseData): (r: string)
    ensures data.ErrorData? ==> r == data.error
    ensures !data.ErrorData? ==> r == ""
  {
    if data.ErrorData? then data.error else ""
  }

  /** `err.response?.data?.error || fallback`: the server's error, or the fallback. */
  function ServerErrorOr(response: Option<ResponseData>, fallback: string): (r: string)
    ensures response.Some? && response.value.ErrorData? && response.value.error != "" ==> r == response.value.error
    ensures !(response.Some? && response.value.ErrorData? && response.value.error != "") ==> r == fallback
    ensures fallback != "" ==> r != ""
  {
    OrElse(if response.Some? then ErrorOf(response.value) else "", fallback)
  }

  /** The login page's classification of a failure: the server's error (or a
      default) when there is a response, a network message when a request went
      out unanswered, and the error's own message otherwise. */
  function LoginErrorText<T>(f: Outcome<T>): (text: string)
    requires f.Failure?
    ensures f.response.Some? ==> text == ServerErrorOr(f.response, "Login failed. Please check your credentials.")
    ensures f.response.None? && f.requestSent ==> text == "Network error. Please check your connection."
    ensures f.response.None? && !f.requestSent ==> text == "Error: " + f.message
    ensures text != ""
  {
    if f.response.Some? then ServerErrorOr(f.response, "Login failed. Please check your credentials.")
    else if f.requestSent then "Network error. Please check your connection."
    else "Error: " + f.message
  }

  /** The registration page's failure text: an object body without an `error`
      shows all its values, flattened and joined with ", "; otherwise the
      server's error or "Registration failed". */
  function RegisterErrorText<T>(f: Outcome<T>): (text: string)
    requires f.Failure?
    ensures f.response.Some? && f.response.value.ErrorData? ==> text == f.response.value.error
    ensures f.response.None? || f.response == Some(OtherData) ==> text == "Registration failed"
  {
    match f.response
    case Some(FieldData(entries)) => Join(Flatten(seq(|entries|, i requires 0 <= i < |entries| => entries[i].1)), ", ")
    case Some(ErrorData("")) => ""
    case _ => ServerErrorOr(f.response, "Registration failed")
  }

  /** No field message is lost: each one occurs in the registration page's text. */
  lemma RegisterErrorShowsEveryMessage<T>(f: Outcome<T>, i: nat, j: nat)
    requires f.Failure? && f.response.Some? && f.response.value.FieldData?
    requires i < |f.response.value.entries| && j < |f.response.value.entries[i].1|
    ensures Contains(RegisterErrorText(f), f.response.value.entries[i].1[j])
  {
    var entries := f.response.value.entries;
    var values := seq(|entries|, k requires 0 <= k < |entries| => entries[k].1);
    assert values[i] == entries[i].1;
    var parts := Flatten(values);
    var m := entries[i].1[j];
    assert m in parts;
    var p :| 0 <= p < |parts| && parts[p] == m;
    JoinContainsParts(parts, ", ", p);
  }

  /** The JSON a back-end response body becomes; serializer errors come one
      message per field. */
  function AsData(body: Accounts.Body): (data: ResponseData)
    ensures body.ErrorBody? ==> ErrorOf(data) == body.error
  {
    match body
    case ErrorBody(e) => ErrorData(e)
    case Validation(errs) => FieldData(seq(|errs|, i requires 0 <= i < |errs| => (errs[i].field, [errs[i].message])))
    case _ => OtherData
  }

  /** Where login and sign-up land: students and teachers on their dashboards,
      every other role (admin included) on the catalog. */
  function RoleHome(role: string): (path: string)
    ensures role == "student" <==> path == "/student"
    ensures role == "teacher" <==> path == "/teacher"
    ensures path in {"/student", "/teacher", "/courses"}
  {
    if role == "student" then "/student"
    else if role == "teacher" then "/teacher"
    else "/courses"
  }

  /** What the pages store as `lms_session`: exactly the role and e-mail of the answer. */
  datatype Session = Session(role: string, email: string)

  /** A navigation, with the e-mail and code some routes carry as state. */
  datatype Navigation = Navigation(path: string, email: string, otp: string)
}
