/**
 * The profile page: a mock login/register screen. Its six state variables
 * are the fields of `Profile`; each handler is a method. The submit handler
 * is split at its `await` (`BeginSubmit`, `CompleteSubmit`), and the values
 * its closure captured before the `await` travel in the `AuthRequest`.
 * The answer of `/api/users/login` or `/api/users/register` is an input.
 */
module ProfilePage {
  import opened Common

  /** The user the page shows once logged in. */
  datatype UserProfile = UserProfile(id: int, username: string, email: string, memberSince: string, preferences: seq<string>)

  const MockUserId := 1
  const MockUser := UserProfile(MockUserId, "BudgetChefMaster", "user@example.com", "2025-10-26", ["Vegetarian", "Low Carb"])

  datatype AuthData = AuthData(username: string, email: string, password: string)
  const EmptyAuthData := AuthData("", "", "")

  /** The form inputs, by their `name` attribute. */
  datatype AuthField = Username | Email | Password

  const LogoutMessage := "You have been logged out."
  const UnexpectedErrorMessage := "An unexpected error occurred."

  /** The request `handleSubmit` sends, with the view it was sent from. */
  datatype AuthRequest = AuthRequest(endpoint: string, url: string, payload: AuthData, fromLoginView: bool)

  /** How the axios call ends: resolved with `{success, message}` (a missing
      message is the empty string, which is just as falsy), or rejected, with
      the server's `error` text when the failed response carried one and the
      empty string otherwise. */
  datatype AuthOutcome = Replied(success: bool, message: string) | Rejected(serverError: string)

  /** `isLoginView ? 'login' : 'register'`. */
  function Endpoint(isLoginView: bool): (e: string)
    ensures e == "login" <==> isLoginView
    ensures e == "register" <==> !isLoginView
  {
    if isLoginView then "login" else "register"
  }

  /** The message a reply without `success` leaves on the page. */
  function RefusalMessage(serverMessage: string): (m: string)
    ensures m != ""
    ensures serverMessage != "" ==> m == serverMessage
    ensures serverMessage == "" ==> m == UnexpectedErrorMessage
  {
    if serverMessage != "" then serverMessage else UnexpectedErrorMessage
  }

  /** The message a rejected request leaves on the page: the server's error
      text, or a fallback that names the endpoint that was tried. */
  function RejectionMessage(serverError: string, fromLoginView: bool): (m: string)
    ensures m != ""
    ensures serverError != "" ==> m == serverError
    ensures serverError == "" ==> m == "Failed to " + Endpoint(fromLoginView) + ". Check server logs."
  {
    if serverError != "" then serverError else "Failed to " + Endpoint(fromLoginView) + ". Check server logs."
  }

  class Profile {
    var isLoggedIn: bool
    var user: Option<UserProfile>
    var isLoginView: bool
    var authData: AuthData
    var message: string
    var isLoading: bool

    /** Once the login effect has run, the user is the mock user exactly
        when logged in, and nobody otherwise. */
    ghost predicate Valid()
      reads this
    {
      user == if isLoggedIn then Some(MockUser) else None
    }

    constructor ()
      ensures Valid()
      ensures !isLoggedIn && user.None? && isLoginView && authData == EmptyAuthData
      ensures message == "" && !isLoading
    {
      isLoggedIn, user, isLoginView := false, None, true;
      authData, message, isLoading := EmptyAuthData, "", false;
    }

    /** `isLoggedIn && user ? renderUserProfile() : renderAuthForm()`. */
    function ShowsProfile(): (shown: bool)
      requires Valid()
      reads this
      ensures shown <==> isLoggedIn
    {
      isLoggedIn && user.Some?
    }

    /** The `useEffect` on `[isLoggedIn]`: when logged in, the user becomes
        the mock user; otherwise nothing changes. */
    method LoginEffect()
      modifies this
      ensures user == if isLoggedIn then Some(MockUser) else old(user)
      ensures isLoggedIn == old(isLoggedIn) && isLoginView == old(isLoginView)
      ensures authData == old(authData) && message == old(message) && isLoading == old(isLoading)
    {
      if isLoggedIn {
        user := Some(MockUser);
      }
    }

    /** `handleChange`: the named field takes the typed value. */
    method Change(field: AuthField, value: string)
      requires Valid()
      modifies this
      ensures Valid()
      ensures authData == match field
                          case Username => old(authData).(username := value)
                          case Email => old(authData).(email := value)
                          case Password => old(authData).(password := value)
      ensures isLoggedIn == old(isLoggedIn) && user == old(user) && isLoginView == old(isLoginView)
      ensures message == old(message) && isLoading == old(isLoading)
    {
      match field
      case Username => authData := authData.(username := value);
      case Email => authData := authData.(email := value);
      case Password => authData := authData.(password := value);
    }

    /** `handleSubmit` up to the `await`: loading on, message cleared, and a
        request to `login` from the login view, to `register` otherwise. */
    method BeginSubmit() returns (request: AuthRequest)
      requires Valid()
      modifies this
      ensures Valid()
      ensures request.endpoint == Endpoint(old(isLoginView)) && request.fromLoginView == old(isLoginView)
      ensures request.url == "http://localhost:5000/api/users/" + request.endpoint
      ensures request.payload == authData
      ensures isLoading && message == ""
      ensures isLoggedIn == old(isLoggedIn) && user == old(user) && isLoginView == old(isLoginView)
      ensures authData == old(authData)
    {
      isLoading := true;
      message := "";
      var endpoint := Endpoint(isLoginView);
      request := AuthRequest(endpoint, "http://localhost:5000/api/users/" + endpoint, authData, isLoginView);
    }

    /** `handleSubmit` from the answer on, followed by the login effect.
        A successful reply logs in, shows the server's message and returns a
        page that submitted from the register view to the login view. Any
        other ending leaves the login state alone and shows the server's
        message or a fallback. Loading is off on every path (`finally`). */
    method CompleteSubmit(request: AuthRequest, outcome: AuthOutcome)
      requires Valid()
      modifies this
      ensures Valid()
      ensures !isLoading
      ensures outcome.Replied? && outcome.success ==>
        && isLoggedIn && user == Some(MockUser)
        && message == outcome.message
        && isLoginView == (if request.fromLoginView then old(isLoginView) else true)
      ensures outcome.Replied? && !outcome.success ==>
        && isLoggedIn == old(isLoggedIn) && isLoginView == old(isLoginView)
        && message == RefusalMessage(outcome.message)
      ensures outcome.Rejected? ==>
        && isLoggedIn == old(isLoggedIn) && isLoginView == old(isLoginView)
        && message == RejectionMessage(outcome.serverError, request.fromLoginView)
      ensures authData == old(authData)
    {
      match outcome {
        case Replied(success, serverMessage) =>
          if success {
            message := serverMessage;
            isLoggedIn := true;
            if !request.fromLoginView {
              isLoginView := true;
            }
          } else {
            message := RefusalMessage(serverMessage);
          }
        case Rejected(serverError) =>
          message := RejectionMessage(serverError, request.fromLoginView);
      }
      isLoading := false;
      LoginEffect();
    }

    /** The "Register here" / "Log In" link: flips the view, clears the
        message, and touches nothing else. */
    method ToggleView()
      requires Valid()
      modifies this
      ensures Valid()
      ensures isLoginView == !old(isLoginView) && message == ""
      ensures isLoggedIn == old(isLoggedIn) && user == old(user) && authData == old(authData)
      ensures isLoading == old(isLoading)
    {
      isLoginView := !isLoginView;
      message := "";
    }

    /** `handleLogout`: logged out, no user, the form emptied, a fixed message. */
    method Logout()
      requires Valid()
      modifies this
      ensures Valid()
      ensures !isLoggedIn && user.None? && authData == EmptyAuthData && message == LogoutMessage
      ensures isLoginView == old(isLoginView) && isLoading == old(isLoading)
    {
      isLoggedIn := false;
      user := None;
      message := LogoutMessage;
      authData := EmptyAuthData;
      LoginEffect();
    }
  }
}
