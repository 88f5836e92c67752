/** The login round trip across the two halves of the system: the token view's outcome as the
    login form receives it, and the route guard that the form's navigation lands on. */
module LoginFlow {
  import opened Wrappers
  import opened JsText
  import Views
  import LoginForm
  import ProtectedRoute

  /** How the form's request settles for an outcome of the token view: a 200 body arrives
      with its four strings; any other status rejects the request with that status, and an
      exception the view does not catch reaches the client as a 500. */
  function ClientReply(o: Views.Outcome): LoginForm.LoginReply {
    match o
    case Raised(_) => LoginForm.Refused(Some(500))
    case Respond(status, body) =>
      if status == 200 && body.Granted? then
        LoginForm.Accepted(Str(body.access), Str(body.refresh), Str(body.userType), Str(body.userName))
      else LoginForm.Refused(Some(status))
  }

  /** The session entries the guard reads, from what the form wrote. */
  function SessionToken(written: map<string, string>): Option<string> {
    if "access_token" in written then Some(written["access_token"]) else None
  }

  function SessionUserType(written: map<string, string>): Option<string> {
    if "user_type" in written then Some(written["user_type"]) else None
  }

  /** Every refusal of the token view reaches the form as an error and no navigation; only
      the view's 401 shows the credentials message, so missing credentials, an inactive user
      and a shared email all show the generic one. */
  lemma RefusalsShownAsErrors(request: Views.LoginRequest, users: seq<Views.Account>,
                              authenticate: (string, string) -> Option<Views.Account>,
                              issue: Views.Account -> Views.TokenPair)
    ensures var o := Views.ObtainToken(request, users, authenticate, issue);
      var st := LoginForm.Settle(ClientReply(o));
      (o.Raised? || o.status != 200) ==>
        st.navigateTo == None && st.written == map[] &&
        (st.errorSet == Some(LoginForm.InvalidCredentialsMessage) <==> o.Respond? && o.status == 401) &&
        (st.errorSet != Some(LoginForm.InvalidCredentialsMessage) ==>
           st.errorSet == Some(LoginForm.UnexpectedErrorMessage))
  {
    var o := Views.ObtainToken(request, users, authenticate, issue);
    if ClientReply(o).Refused? {
      LoginForm.RefusedReplyEffects(ClientReply(o).status);
    }
  }

  /** A successful login with a non-empty access token: the form stores the tokens and the
      user type as the view printed it, navigates by that type, and the guard then shows
      type 1 the admin page (after its redirect from the lower-case path the form navigates
      to) and type 2 the client page; any other type, a missing one included, stays on the
      form with no error. */
  lemma SuccessfulLoginLands(request: Views.LoginRequest, users: seq<Views.Account>,
                             authenticate: (string, string) -> Option<Views.Account>,
                             issue: Views.Account -> Views.TokenPair, user: Views.Account)
    requires !Views.Falsy(request.username) && !Views.Falsy(request.password)
    requires Views.Lookup(users, request.username.value) == [user] && user.isActive
    requires authenticate(user.username, request.password.value).Some?
    requires issue(authenticate(user.username, request.password.value).value).access != ""
    ensures var u := authenticate(user.username, request.password.value).value;
      var st := LoginForm.Settle(ClientReply(Views.ObtainToken(request, users, authenticate, issue)));
      var token := SessionToken(st.written);
      var userType := SessionUserType(st.written);
      st.errorSet == None &&
      token == Some(issue(u).access) && userType == Some(Views.PyStr(u.userType)) &&
      (u.userType == Some(1) ==>
         st.navigateTo == Some("/admin") &&
         ProtectedRoute.Settled(token, userType, "/admin") == ProtectedRoute.RedirectTo("/Admin") &&
         ProtectedRoute.Settled(token, userType, "/Admin") == ProtectedRoute.RenderChildren) &&
      (u.userType == Some(2) ==>
         st.navigateTo == Some("/landing") &&
         ProtectedRoute.Settled(token, userType, "/landing") == ProtectedRoute.RenderChildren) &&
      (u.userType != Some(1) && u.userType != Some(2) ==> st.navigateTo == None)
  {
    var u := authenticate(user.username, request.password.value).value;
    Views.SuccessfulLogin(request, users, authenticate, issue, user);
    Views.UserTypeStrings(u.userType);
    LoginForm.AcceptedReplyEffects(Str(issue(u).access), Str(issue(u).refresh),
                                   Str(Views.PyStr(u.userType)), Str(u.firstName));
    LoginForm.DestinationsByType(Str(Views.PyStr(u.userType)));
  }
}
