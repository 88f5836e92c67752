/** The back end's token view, logout view and user-creation hook. The login view is a chain
    of early returns over a request body and the table of stored users; authentication and
    token minting are parameters, as is the token check the logout view relies on. */
module Views {
  import opened Wrappers
  import Models

  /** The `username` and `password` entries of a login request body, when present. */
  datatype LoginRequest = LoginRequest(username: Option<string>, password: Option<string>)

  /** A stored user as the login view reads it. */
  datatype Account = Account(username: string, email: string, firstName: string,
                             isActive: bool, userType: Option<int>)

  /** The pair of tokens minted for a user. */
  datatype TokenPair = TokenPair(refresh: string, access: string)

  /** The JSON bodies the views answer with. */
  datatype Body =
    | Detail(detail: string)
    | Granted(refresh: string, access: string, userType: string, userName: string)
    | Message(message: string)

  /** A view's outcome: a response, or an exception it does not catch. */
  datatype Outcome = Respond(status: int, body: Body) | Raised(exception: string)

  const CredentialsRequired := "Username and password are required."
  const InvalidCredentials := "Invalid credentials"
  const UserInactive := "User is inactive."
  const LoggedOut := "Successfully logged out."
  const InvalidToken := "Invalid token."

  /** Python falsiness of an optional string: absent or empty. */
  predicate Falsy(v: Option<string>) {
    v.None? || v.value == ""
  }

  /** The column a lookup compares against. */
  function KeyOf(a: Account, byEmail: bool): string {
    if byEmail then a.email else a.username
  }

  /** The stored users whose email (or username) equals `key`, in table order. */
  function Matching(users: seq<Account>, byEmail: bool, key: string): (r: seq<Account>)
    ensures forall a :: a in r <==> a in users && KeyOf(a, byEmail) == key
    ensures |r| <= |users|
  {
    if users == [] then []
    else
      var rest := Matching(users[1..], byEmail, key);
      assert forall a :: a in users <==> a == users[0] || a in users[1..];
      if KeyOf(users[0], byEmail) == key then [users[0]] + rest else rest
  }

  /** The lookup of the login view: by email when the identifier contains '@', by username
      otherwise. */
  function Lookup(users: seq<Account>, identifier: string): (r: seq<Account>)
    ensures '@' in identifier ==> forall a :: a in r <==> a in users && a.email == identifier
    ensures '@' !in identifier ==> forall a :: a in r <==> a in users && a.username == identifier
  {
    Matching(users, '@' in identifier, identifier)
  }

  /** The decimal digits of a natural number. */
  function Decimal(n: nat): (r: string)
    ensures |r| >= 1 && (n >= 10 ==> |r| >= 2)
    ensures forall i :: 0 <= i < |r| ==> '0' <= r[i] <= '9'
  {
    if n < 10 then ["0123456789"[n]] else Decimal(n / 10) + ["0123456789"[n % 10]]
  }

  /** Python's `str` of an optional integer. */
  function PyStr(v: Option<int>): string {
    match v
    case None => "None"
    case Some(n) => if n < 0 then "-" + Decimal(-n) else Decimal(n)
  }

  /** The user type travels as "1" exactly for type 1 and as "2" exactly for type 2; a user
      without a type gets "None". */
  lemma UserTypeStrings(v: Option<int>)
    ensures PyStr(v) == "1" <==> v == Some(1)
    ensures PyStr(v) == "2" <==> v == Some(2)
    ensures PyStr(None) == "None"
  {
    if v.Some? && v.value < 0 {
      assert PyStr(v)[0] == '-';
    }
  }

  /** ObtainTokenView.post. */
  function ObtainToken(request: LoginRequest, users: seq<Account>,
                       authenticate: (string, string) -> Option<Account>,
                       issue: Account -> TokenPair): (r: Outcome)
    ensures r.Respond? ==> r.status in {200, 400, 401, 403}
    ensures r.Respond? ==> (r.status == 200 <==> r.body.Granted?)
    ensures r.Raised? ==> request.username.Some? && |Lookup(users, request.username.value)| > 1
  {
    if Falsy(request.username) || Falsy(request.password) then
      Respond(400, Detail(CredentialsRequired))
    else
      var identifier := request.username.value;
      var found := Lookup(users, identifier);
      if |found| == 0 then Respond(401, Detail(InvalidCredentials))
      else if |found| > 1 then Raised("MultipleObjectsReturned")
      else
        var user := found[0];
        if !user.isActive then Respond(403, Detail(UserInactive))
        else
          match authenticate(user.username, request.password.value)
          case None => Respond(401, Detail(InvalidCredentials))
          case Some(authenticated) =>
            var tokens := issue(authenticated);
            Respond(200, Granted(tokens.refresh, tokens.access, PyStr(authenticated.userType),
                                 authenticated.firstName))
  }

  /** A missing or empty username or password is refused before any lookup, whatever the
      table and the authenticator. */
  lemma MissingCredentialsRefused(request: LoginRequest, users: seq<Account>,
                                  authenticate: (string, string) -> Option<Account>,
                                  issue: Account -> TokenPair)
    requires Falsy(request.username) || Falsy(request.password)
    ensures ObtainToken(request, users, authenticate, issue) == Respond(400, Detail(CredentialsRequired))
    ensures ObtainToken(request, users, authenticate, issue) == ObtainToken(request, [], authenticate, issue)
  {
  }

  /** An identifier no stored user has is refused with 401. */
  lemma UnknownUserRefused(request: LoginRequest, users: seq<Account>,
                           authenticate: (string, string) -> Option<Account>,
                           issue: Account -> TokenPair)
    requires !Falsy(request.username) && !Falsy(request.password)
    requires forall a :: a in users ==>
               KeyOf(a, '@' in request.username.value) != request.username.value
    ensures ObtainToken(request, users, authenticate, issue) == Respond(401, Detail(InvalidCredentials))
  {
    NoneMatching(users, '@' in request.username.value, request.username.value);
  }

  /** No stored user carries the key, so none is selected. */
  lemma {:induction false} NoneMatching(users: seq<Account>, byEmail: bool, key: string)
    requires forall a :: a in users ==> KeyOf(a, byEmail) != key
    ensures Matching(users, byEmail, key) == []
  {
    if users != [] {
      assert users[0] in users;
      NoneMatching(users[1..], byEmail, key);
    }
  }

  /** An inactive user is refused with 403 before the password is looked at: any password and
      any authenticator give the same answer. */
  lemma InactiveRefusedWhateverPassword(identifier: string, password: string, users: seq<Account>,
                                        authenticate: (string, string) -> Option<Account>,
                                        issue: Account -> TokenPair)
    requires identifier != "" && password != ""
    requires |Lookup(users, identifier)| == 1 && !Lookup(users, identifier)[0].isActive
    ensures ObtainToken(LoginRequest(Some(identifier), Some(password)), users, authenticate, issue)
            == Respond(403, Detail(UserInactive))
  {
  }

  /** A wrong password gets exactly the answer an unknown user gets. */
  lemma WrongPasswordLikeUnknownUser(request: LoginRequest, users: seq<Account>,
                                     authenticate: (string, string) -> Option<Account>,
                                     issue: Account -> TokenPair)
    requires !Falsy(request.username) && !Falsy(request.password)
    requires |Lookup(users, request.username.value)| == 1
    requires Lookup(users, request.username.value)[0].isActive
    requires authenticate(Lookup(users, request.username.value)[0].username, request.password.value).None?
    ensures ObtainToken(request, users, authenticate, issue) == ObtainToken(request, [], authenticate, issue)
    ensures ObtainToken(request, users, authenticate, issue) == Respond(401, Detail(InvalidCredentials))
  {
  }

  /** A successful login answers 200 with exactly the two tokens, the user type as Python
      prints it and the first name. */
  lemma SuccessfulLogin(request: LoginRequest, users: seq<Account>,
                        authenticate: (string, string) -> Option<Account>,
                        issue: Account -> TokenPair, user: Account)
    requires !Falsy(request.username) && !Falsy(request.password)
    requires Lookup(users, request.username.value) == [user] && user.isActive
    requires authenticate(user.username, request.password.value).Some?
    ensures var u := authenticate(user.username, request.password.value).value;
      ObtainToken(request, users, authenticate, issue) ==
        Respond(200, Granted(issue(u).refresh, issue(u).access, PyStr(u.userType), u.firstName)) &&
      (u.userType.None? ==> PyStr(u.userType) == "None")
  {
  }

  /** Two stored users sharing the email a client logs in with make the lookup raise. */
  lemma SharedEmailRaises(identifier: string, password: string, a: Account, b: Account,
                          authenticate: (string, string) -> Option<Account>,
                          issue: Account -> TokenPair)
    requires '@' in identifier && password != ""
    requires a.email == identifier && b.email == identifier
    ensures ObtainToken(LoginRequest(Some(identifier), Some(password)), [a, b], authenticate, issue).Raised?
  {
    assert Lookup([a, b], identifier) == [a, b];
  }

  /** LogoutView.post: `data` is the request body and `accepts` whether the refresh token
      parses and can be blacklisted. Every failure, a missing key included, is a 400. */
  function Logout(data: map<string, string>, accepts: string -> bool): (r: Outcome)
    ensures r.Respond? && (r.status == 205 || r.status == 400)
    ensures r.status == 205 <==> "refresh_token" in data && accepts(data["refresh_token"])
    ensures r.status == 400 ==> r.body == Message(InvalidToken)
  {
    if "refresh_token" !in data then Respond(400, Message(InvalidToken))
    else if !accepts(data["refresh_token"]) then Respond(400, Message(InvalidToken))
    else Respond(205, Message(LoggedOut))
  }

  /** The fields the user serializer validated. */
  datatype ValidatedUser = ValidatedUser(username: string, password: string,
                                         otherFields: map<string, Models.PyValue>)

  /** The password perform_create leaves in the row: the serializer's save hashes the raw
      password, set_password hashes that hash, and the last save keeps it. */
  function ApiCreatedPassword(digest: string -> string, raw: string): string {
    Models.PasswordToStore(digest,
      Models.MakePassword(digest, Models.PasswordToStore(digest, raw)))
  }

  /** UserViewSet.perform_create as written. */
  method PerformCreate(data: ValidatedUser, digest: string -> string) returns (user: Models.User)
    ensures fresh(user) && user.username == data.username && user.fields == data.otherFields
    ensures user.password == ApiCreatedPassword(digest, data.password)
    ensures user.storedPassword == Some(user.password)
  {
    user := new Models.User(data.username, data.password, data.otherFields);
    user.Save(digest);
    user.SetPassword(Some(user.password), digest, "");
    user.Save(digest);
  }

  /** A raw password sent to the user endpoint is stored hashed twice. */
  lemma ApiCreatedPasswordHashedTwice(digest: string -> string, raw: string)
    requires raw != "" && !Models.StartsWith(raw, Models.HashPrefix)
    ensures ApiCreatedPassword(digest, raw) ==
            Models.MakePassword(digest, Models.MakePassword(digest, raw))
  {
    var once := Models.MakePassword(digest, raw);
    var twice := Models.MakePassword(digest, once);
    assert Models.StartsWith(twice, Models.HashPrefix);
  }

  /** So, for any hasher that tells inputs apart, the user's own password does not check
      against what was stored. */
  lemma ApiCreatedUserRejectsOwnPassword(digest: string -> string, raw: string)
    requires raw != "" && !Models.StartsWith(raw, Models.HashPrefix)
    requires forall x, y :: digest(x) == digest(y) ==> x == y
    ensures !Models.CheckPassword(digest, raw, ApiCreatedPassword(digest, raw))
  {
    ApiCreatedPasswordHashedTwice(digest, raw);
  }

  /** perform_create with the serializer's save alone, which already hashes the password
      once; the user's own password then checks. */
  method PerformCreateCorrected(data: ValidatedUser, digest: string -> string)
    returns (user: Models.User)
    ensures fresh(user) && user.username == data.username && user.fields == data.otherFields
    ensures user.password == Models.PasswordToStore(digest, data.password)
    ensures user.storedPassword == Some(user.password)
    ensures data.password != "" && !Models.StartsWith(data.password, Models.HashPrefix) ==>
              Models.CheckPassword(digest, data.password, user.password)
  {
    user := new Models.User(data.username, data.password, data.otherFields);
    user.Save(digest);
  }
}
