/** The login form: two trimmed text fields, a password-visibility toggle, and the submit
    handler that sends the trimmed credentials, stores the four reply fields in the session and
    navigates by user type. The request itself is split in two: the handler up to the request,
    and the handler once the request has settled with a reply. */
module LoginForm {
  import opened Wrappers
  import opened JsText

  /** The body the form posts. */
  datatype Credentials = Credentials(username: string, password: string)

  /** The body posted for what the two fields hold: both trimmed. */
  function TrimmedBody(username: string, password: string): Credentials {
    Credentials(Trim(username), Trim(password))
  }

  /** How the login request settles: resolved, with the four fields of its body, or rejected,
      with the response status when there was a response. */
  datatype LoginReply =
    | Accepted(access: JsValue, refresh: JsValue, userType: JsValue, userName: JsValue)
    | Refused(status: Option<int>)

  const LoginFailedMessage := "Login failed. Please try again."
  const InvalidCredentialsMessage := "Invalid credentials. Please try again."
  const UnexpectedErrorMessage := "An unexpected error occurred. Please try again later."

  /** Where a successful login goes for the user type of the reply (compared strictly). */
  function Destination(userType: JsValue): Option<string> {
    if userType == Str("1") then Some("/admin")
    else if userType == Str("2") then Some("/landing")
    else None
  }

  /** The error a rejected request shows. */
  function RefusalMessage(status: Option<int>): string {
    if status == Some(401) then InvalidCredentialsMessage else UnexpectedErrorMessage
  }

  /** What a settled request leaves: where it navigates, the error it sets (None when it
      leaves the error alone) and the session entries it writes. */
  datatype Settlement = Settlement(navigateTo: Option<string>, errorSet: Option<string>,
                                   written: map<string, string>)

  /** The effect of a settled request. */
  function Settle(reply: LoginReply): Settlement {
    match reply
    case Accepted(access, refresh, userType, userName) =>
      var written := map["access_token" := StorageString(access),
                         "refresh_token" := StorageString(refresh),
                         "user_type" := StorageString(userType),
                         "user_name" := StorageString(userName)];
      if Truthy(written["access_token"]) then Settlement(Destination(userType), None, written)
      else Settlement(None, Some(LoginFailedMessage), written)
    case Refused(status) => Settlement(None, Some(RefusalMessage(status)), map[])
  }

  /** A resolved request writes each of the four fields under its own key as Storage.setItem
      stringifies it; it fails with the login-failed message exactly when the access token is
      the empty string, and otherwise navigates by type without touching the error. */
  lemma AcceptedReplyEffects(access: JsValue, refresh: JsValue, userType: JsValue, userName: JsValue)
    ensures var st := Settle(Accepted(access, refresh, userType, userName));
      st.written.Keys == {"access_token", "refresh_token", "user_type", "user_name"} &&
      st.written["access_token"] == StorageString(access) &&
      st.written["refresh_token"] == StorageString(refresh) &&
      st.written["user_type"] == StorageString(userType) &&
      st.written["user_name"] == StorageString(userName) &&
      (st.errorSet == Some(LoginFailedMessage) <==> access == Str("")) &&
      (access != Str("") ==> st.errorSet == None && st.navigateTo == Destination(userType)) &&
      (access == Str("") ==> st.navigateTo == None)
  {
    StoredValueFalsyIffEmpty(access);
  }

  /** A missing access token is stored as the truthy string "undefined", so the check after
      storing it does not catch it and the login still navigates. */
  lemma MissingAccessTokenStillNavigates(refresh: JsValue, userName: JsValue)
    ensures Settle(Accepted(Undefined, refresh, Str("1"), userName)) ==
            Settlement(Some("/admin"), None, Settle(Accepted(Undefined, refresh, Str("1"), userName)).written)
    ensures Settle(Accepted(Undefined, refresh, Str("1"), userName)).written["access_token"] == "undefined"
  {
  }

  /** Only the strings "1" and "2" navigate, to the admin and to the client page. */
  lemma DestinationsByType(userType: JsValue)
    ensures Destination(userType) == Some("/admin") <==> userType == Str("1")
    ensures Destination(userType) == Some("/landing") <==> userType == Str("2")
    ensures Destination(userType).None? <==> userType != Str("1") && userType != Str("2")
  {
  }

  /** A rejected request writes nothing and navigates nowhere; the credentials message is
      shown for a 401 response alone, every other failure (no response included) shows the
      generic one. */
  lemma RefusedReplyEffects(status: Option<int>)
    ensures Settle(Refused(status)).written == map[] && Settle(Refused(status)).navigateTo == None
    ensures Settle(Refused(status)).errorSet == Some(InvalidCredentialsMessage) <==> status == Some(401)
    ensures Settle(Refused(status)).errorSet == Some(UnexpectedErrorMessage) <==> status != Some(401)
  {
  }

  /** The `type` attribute of the password input. */
  function PasswordInputType(showPassword: bool): (t: string)
    ensures t == "text" <==> showPassword
    ensures t == "password" <==> !showPassword
  {
    if showPassword then "text" else "password"
  }

  /** The form component. */
  class Form {
    var username: string
    var password: string
    var showPassword: bool
    var error: string
    var loading: bool

    constructor()
      ensures username == "" && password == "" && !showPassword && error == "" && !loading
    {
      username := "";
      password := "";
      showPassword := false;
      error := "";
      loading := false;
    }

    /** onChange of the username field: the value as typed. */
    method ChangeUsername(value: string)
      modifies this
      ensures username == value
      ensures password == old(password) && showPassword == old(showPassword)
      ensures error == old(error) && loading == old(loading)
    {
      username := value;
    }

    /** onChange of the password field. */
    method ChangePassword(value: string)
      modifies this
      ensures password == value
      ensures username == old(username) && showPassword == old(showPassword)
      ensures error == old(error) && loading == old(loading)
    {
      password := value;
    }

    /** onBlur of the username field: the value trimmed. */
    method BlurUsername(value: string)
      modifies this
      ensures username == Trim(value)
      ensures password == old(password) && showPassword == old(showPassword)
      ensures error == old(error) && loading == old(loading)
    {
      username := Trim(value);
    }

    /** onBlur of the password field. */
    method BlurPassword(value: string)
      modifies this
      ensures password == Trim(value)
      ensures username == old(username) && showPassword == old(showPassword)
      ensures error == old(error) && loading == old(loading)
    {
      password := Trim(value);
    }

    method TogglePasswordVisibility()
      modifies this
      ensures showPassword == !old(showPassword)
      ensures username == old(username) && password == old(password)
      ensures error == old(error) && loading == old(loading)
    {
      showPassword := !showPassword;
    }

    /** What the password input's `type` is now. */
    function PasswordType(): string
      reads this
    {
      PasswordInputType(showPassword)
    }

    /** handleSubmit up to the request: clears the error, shows the spinner and returns the
        body it posts, the trimmed fields; the fields themselves are left as typed. */
    method BeginSubmit() returns (sent: Credentials)
      modifies this
      ensures sent == TrimmedBody(old(username), old(password))
      ensures error == "" && loading
      ensures username == old(username)
      ensures password == old(password)
      ensures showPassword == old(showPassword)
    {
      var body := TrimmedBody(username, password);
      error := "";
      loading := true;
      sent := body;
    }

    /** handleSubmit once the request has settled: stores, navigates or sets the error, and
        hides the spinner in every case. */
    method FinishSubmit(reply: LoginReply) returns (navigateTo: Option<string>, written: map<string, string>)
      modifies this
      ensures navigateTo == Settle(reply).navigateTo && written == Settle(reply).written
      ensures error == Settle(reply).errorSet.GetOr(old(error))
      ensures !loading
      ensures username == old(username) && password == old(password)
      ensures showPassword == old(showPassword)
    {
      navigateTo := None;
      written := map[];
      match reply {
        case Accepted(access, refresh, userType, userName) =>
          written := written["access_token" := StorageString(access)];
          written := written["refresh_token" := StorageString(refresh)];
          written := written["user_type" := StorageString(userType)];
          written := written["user_name" := StorageString(userName)];
          if Truthy(written["access_token"]) {
            if userType == Str("1") {
              navigateTo := Some("/admin");
            } else if userType == Str("2") {
              navigateTo := Some("/landing");
            }
          } else {
            error := LoginFailedMessage;
          }
        case Refused(status) =>
          if status == Some(401) {
            error := InvalidCredentialsMessage;
          } else {
            error := UnexpectedErrorMessage;
          }
      }
      loading := false;
    }
  }

  /** A whole submit: the posted credentials are trimmed whether or not the fields were
      blurred, the error shown afterwards is the settlement's (empty when it sets none), and
      the spinner is gone. */
  method Submit(typedUsername: string, typedPassword: string, reply: LoginReply)
    returns (sent: Credentials, navigateTo: Option<string>, shownError: string, spinning: bool)
    ensures sent == TrimmedBody(typedUsername, typedPassword)
    ensures navigateTo == Settle(reply).navigateTo
    ensures shownError == Settle(reply).errorSet.GetOr("")
    ensures !spinning
  {
    var form := new Form();
    form.ChangeUsername(typedUsername);
    form.ChangePassword(typedPassword);
    sent := form.BeginSubmit();
    var written;
    navigateTo, written := form.FinishSubmit(reply);
    shownError := form.error;
    spinning := form.loading;
  }
}
