/**
 * The login dialog over `AuthService`: it checks that both fields are
 * filled, asks the service, and either closes (clearing its fields) or
 * shows why the attempt failed.
 */
module LoginDialog {
  import opened Wrappers
  import Auth

  const MISSING_CREDENTIALS := "Please enter both username and password"
  const INVALID_CREDENTIALS := "Invalid username or password"

  /** The message `login` leaves behind, if any, for the entered credentials. */
  function LoginOutcome(username: string, password: string): (r: Option<string>)
    ensures r.None? <==> username != "" && password != "" && Auth.Accepts(username, password)
    ensures username == "" || password == "" ==> r == Some(MISSING_CREDENTIALS)
  {
    if username == "" || password == "" then Some(MISSING_CREDENTIALS)
    else if Auth.Accepts(username, password) then None
    else Some(INVALID_CREDENTIALS)
  }

  /** Whenever the service would accept the credentials, the dialog lets them through. */
  lemma AcceptedCredentialsPass(username: string, password: string)
    requires Auth.Accepts(username, password)
    ensures LoginOutcome(username, password).None?
  {
  }

  class LoginModal {
    const authService: Auth.AuthService
    var username: string
    var password: string
    var errorMessage: Option<string>
    /** How many times `modalClosed` was emitted. */
    var closedCount: nat

    constructor (authService: Auth.AuthService)
      ensures this.authService == authService
      ensures username == "" && password == "" && errorMessage.None? && closedCount == 0
    {
      this.authService := authService;
      username, password, errorMessage, closedCount := "", "", None, 0;
    }

    /** `resetForm`. */
    method ResetForm()
      modifies this`username, this`password, this`errorMessage
      ensures username == "" && password == "" && errorMessage.None?
    {
      username := "";
      password := "";
      errorMessage := None;
    }

    /** `closeModal`: tell the parent, then clear the form. */
    method CloseModal()
      modifies this`closedCount, this`username, this`password, this`errorMessage
      ensures closedCount == old(closedCount) + 1
      ensures username == "" && password == "" && errorMessage.None?
    {
      closedCount := closedCount + 1;
      ResetForm();
    }

    /**
     * `login`. Empty fields never reach the service; rejected credentials
     * stay in the form; accepted ones close the dialog.
     */
    method Login()
      requires authService.Valid()
      modifies this`closedCount, this`username, this`password, this`errorMessage, authService
      ensures errorMessage == LoginOutcome(old(username), old(password))
      ensures authService.Valid()
      ensures errorMessage.Some? ==>
        username == old(username) && password == old(password) && closedCount == old(closedCount)
        && authService.currentUser == old(authService.currentUser)
        && authService.storedUser == old(authService.storedUser)
      ensures errorMessage.None? ==>
        username == "" && password == "" && closedCount == old(closedCount) + 1
        && authService.currentUser == Some(old(username)) && authService.storedUser == Some(old(username))
    {
      errorMessage := None;
      if username == "" || password == "" {
        errorMessage := Some(MISSING_CREDENTIALS);
        return;
      }
      var success := authService.Login(username, password);
      if success {
        CloseModal();
      } else {
        errorMessage := Some(INVALID_CREDENTIALS);
      }
    }
  }
}
