/** The login page (`Login.jsx`): an input guard, then the service call; on
    success the token and the session are stored and the page moves to the
    role's home. */
module LoginPage {
  import opened Wrappers
  import opened AuthClient
  import Accounts

  /** The fields of a successful login answer the page reads. */
  datatype LoginAnswer = LoginAnswer(token: string, role: string, email: string)

  class Login {
    var email: string
    var password: string
    var error: string
    /** The `token` and `lms_session` entries of local storage. */
    var token: Option<string>
    var session: Option<Session>
    /** The last navigation, if any. */
    var location: Option<string>

    constructor ()
      ensures email == "" && password == "" && error == ""
      ensures token == None && session == None && location == None
    {
      email, password, error := "", "", "";
      token, session, location := None, None, None;
    }

    method Fill(email: string, password: string)
      modifies this
      ensures this.email == email && this.password == password
      ensures error == old(error) && token == old(token) && session == old(session) && location == old(location)
    {
      this.email, this.password := email, password;
    }

    /** `handleLogin`: an empty e-mail or password stops before any request;
        otherwise the outcome of the service call is applied. */
    method Submit(outcome: Outcome<LoginAnswer>) returns (sent: bool)
      modifies this
      ensures sent <==> old(email) != "" && old(password) != ""
      ensures email == old(email) && password == old(password)
      ensures !sent ==> error == "Please provide both email and password."
      ensures sent && outcome.Success? ==>
        && error == ""
        && token == Some(outcome.value.token)
        && session == Some(Session(outcome.value.role, outcome.value.email))
        && location == Some(RoleHome(outcome.value.role))
      ensures sent && outcome.Failure? ==> error == LoginErrorText(outcome)
      ensures !(sent && outcome.Success?) ==> token == old(token) && session == old(session) && location == old(location)
    {
      error := "";
      if email == "" || password == "" {
        error := "Please provide both email and password.";
        return false;
      }
      sent := true;
      match outcome {
        case Success(answer) =>
          token := Some(answer.token);
          session := Some(Session(answer.role, answer.email));
          location := Some(RoleHome(answer.role));
        case Failure(_, _, _) =>
          error := LoginErrorText(outcome);
      }
    }
  }

  /** A wrong password answered by the back end shows the back end's own text. */
  method ExampleWrongPassword() returns (shown: string)
    ensures shown == "Invalid email or password"
  {
    var page := new Login();
    page.Fill("ann@lms.io", "nope");
    var answer := Accounts.Response(401, Accounts.ErrorBody("Invalid email or password"));
    var sent := page.Submit(Failure(Some(AsData(answer.body)), true, ""));
    shown := page.error;
  }
}
