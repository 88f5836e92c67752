/** The guard around the admin and client pages: it reads the session once, shows a loading
    line until then, and afterwards sends each visitor to the one page of their role. */
module ProtectedRoute {
  import opened Wrappers

  /** What the guard renders. */
  datatype Outcome = ShowLoading | RedirectTo(path: string) | RenderChildren

  const AdminPath := "/Admin"
  const ClientPath := "/landing"
  const HomePath := "/"

  /** The paths the router mounts the guard at. */
  const MountedPaths: seq<string> := ["/admin", "/landing"]

  /** The guard's decision from its three state slots and the current pathname. */
  function Decide(isLoading: bool, isAuthenticated: bool, userType: Option<string>,
                  pathname: string): Outcome
  {
    if isLoading then ShowLoading
    else if !isAuthenticated then RedirectTo(HomePath)
    else if userType == Some("1") then
      if pathname != AdminPath then RedirectTo(AdminPath) else RenderChildren
    else if userType == Some("2") then
      if pathname != ClientPath then RedirectTo(ClientPath) else RenderChildren
    else RedirectTo(HomePath)
  }

  /** `!!token` for a session entry: present and non-empty. */
  predicate HasToken(token: Option<string>) {
    token.Some? && token.value != ""
  }

  /** Who may see a guarded page: a visitor holding a token, of type "1" on the admin path or
      of type "2" on the client path, compared case-sensitively. */
  predicate MayView(token: Option<string>, userType: Option<string>, pathname: string) {
    HasToken(token) &&
    ((userType == Some("1") && pathname == AdminPath) ||
     (userType == Some("2") && pathname == ClientPath))
  }

  /** The decision once the session has been read. */
  function Settled(token: Option<string>, userType: Option<string>, pathname: string): Outcome {
    Decide(false, HasToken(token), userType, pathname)
  }

  /** After the check the guard renders its page exactly for the visitors who may view it, and
      otherwise redirects to home or to the page of the visitor's role. */
  lemma RendersExactlyForRole(token: Option<string>, userType: Option<string>, pathname: string)
    ensures Settled(token, userType, pathname) == RenderChildren <==> MayView(token, userType, pathname)
    ensures Settled(token, userType, pathname).RedirectTo? ==>
              Settled(token, userType, pathname).path in {HomePath, AdminPath, ClientPath}
    ensures Settled(token, userType, pathname) != ShowLoading
  {
  }

  /** Without a token every visitor goes home, whatever the stored type; any type other than
      "1" and "2", a missing one included, goes home too. */
  lemma WithoutRoleGoHome(token: Option<string>, userType: Option<string>, pathname: string)
    ensures !HasToken(token) ==> Settled(token, userType, pathname) == RedirectTo(HomePath)
    ensures userType != Some("1") && userType != Some("2") ==>
              Settled(token, userType, pathname) == RedirectTo(HomePath)
  {
  }

  /** A redirect to a role's page lands on a page the guard then renders. */
  lemma RoleRedirectSettles(token: Option<string>, userType: Option<string>, pathname: string)
    requires Settled(token, userType, pathname).RedirectTo?
    requires Settled(token, userType, pathname).path != HomePath
    ensures Settled(token, userType, Settled(token, userType, pathname).path) == RenderChildren
  {
  }

  /** The comparison is case-sensitive: an admin at the mounted "/admin" is sent to "/Admin",
      while a client at the mounted "/landing" is shown the page. */
  lemma MountedAdminPathRedirects(token: string)
    requires token != ""
    ensures Settled(Some(token), Some("1"), MountedPaths[0]) == RedirectTo(AdminPath)
    ensures Settled(Some(token), Some("2"), MountedPaths[1]) == RenderChildren
  {
  }

  /** The guard component. */
  class Guard {
    var isLoading: bool
    var isUserAuthenticated: bool
    var userType: Option<string>

    constructor()
      ensures isLoading && !isUserAuthenticated && userType == None
    {
      isLoading := true;
      isUserAuthenticated := false;
      userType := None;
    }

    /** checkAuthentication: reads the access token and user type from the session. */
    method CheckAuthentication(token: Option<string>, storedUserType: Option<string>)
      modifies this
      ensures !isLoading
      ensures isUserAuthenticated == HasToken(token) && userType == storedUserType
    {
      isUserAuthenticated := HasToken(token);
      userType := storedUserType;
      isLoading := false;
    }

    /** What the guard renders at `pathname`. */
    function Render(pathname: string): Outcome
      reads this
    {
      Decide(isLoading, isUserAuthenticated, userType, pathname)
    }
  }

  /** Before the check the guard shows the loading line; after it, never. */
  method MountGuard(token: Option<string>, storedUserType: Option<string>, pathname: string)
    returns (before: Outcome, after: Outcome)
    ensures before == ShowLoading
    ensures after == Settled(token, storedUserType, pathname)
  {
    var guard := new Guard();
    before := guard.Render(pathname);
    guard.CheckAuthentication(token, storedUserType);
    after := guard.Render(pathname);
  }
}
