/** The custom user model of the back end: its manager's two constructors, the user-type
    choices, and the rule by which saving a user hashes a raw password. Django's hasher is
    abstract here: `digest` stands for its salted key derivation, and only the algorithm tag it
    writes in front, "pbkdf2_sha256$", is fixed. */
module Models {
  import opened Wrappers

  const HashPrefix := "pbkdf2_sha256$"

  /** The mark Django puts in front of an unusable password. */
  const UnusablePrefix := "!"

  predicate StartsWith(s: string, prefix: string) {
    |prefix| <= |s| && s[..|prefix|] == prefix
  }

  /** make_password of a raw password: the encoded hash, tagged with its algorithm. */
  function MakePassword(digest: string -> string, raw: string): (h: string)
    ensures StartsWith(h, HashPrefix)
  {
    HashPrefix + digest(raw)
  }

  /** check_password of a raw password against an encoded one: the raw password is encoded
      again (for a fixed salt, which `digest` already includes) and compared. */
  predicate CheckPassword(digest: string -> string, raw: string, encoded: string) {
    encoded == MakePassword(digest, raw)
  }

  /** The password User.save writes: a non-empty password without the hasher's tag is
      replaced by its hash, anything else is kept. */
  function PasswordToStore(digest: string -> string, password: string): string {
    if password != "" && !StartsWith(password, HashPrefix) then MakePassword(digest, password)
    else password
  }

  /** Saving hashes exactly the non-empty passwords that lack the tag, and what it stores is
      empty or tagged. */
  lemma SaveHashesOnlyRaw(digest: string -> string, password: string)
    ensures PasswordToStore(digest, password) != password <==>
              (password != "" && !StartsWith(password, HashPrefix))
    ensures PasswordToStore(digest, password) == "" ||
            StartsWith(PasswordToStore(digest, password), HashPrefix)
  {
    if password != "" && !StartsWith(password, HashPrefix) {
      assert StartsWith(PasswordToStore(digest, password), HashPrefix);
    }
  }

  /** Saving twice stores what saving once stores. */
  lemma SaveIdempotent(digest: string -> string, password: string)
    ensures PasswordToStore(digest, PasswordToStore(digest, password)) ==
            PasswordToStore(digest, password)
  {
    SaveHashesOnlyRaw(digest, password);
  }

  /** A value of Python that can be passed as a keyword field. */
  datatype PyValue = PyTrue | PyFalse | PyNone | PyInt(i: int) | PyText(s: string)

  /** USER_TYPE_CHOICES: the values of the nullable user_type column and their labels. */
  const UserTypeChoices: seq<(int, string)> := [(1, "admin"), (2, "client")]

  /** The label of a user type, if it is one of the choices. */
  function UserTypeLabel(userType: int): (r: Option<string>)
    ensures r.Some? ==> (userType, r.value) in UserTypeChoices
    ensures r.None? ==> forall c :: c in UserTypeChoices ==> c.0 != userType
  {
    if userType == 1 then Some("admin")
    else if userType == 2 then Some("client")
    else None
  }

  /** The choices are 1 for admin and 2 for client, and nothing else. */
  lemma UserTypeChoicesAre(userType: int)
    ensures UserTypeLabel(userType).Some? <==> userType == 1 || userType == 2
    ensures UserTypeLabel(1) == Some("admin") && UserTypeLabel(2) == Some("client")
  {
  }

  /** The ValueError the manager raises. */
  datatype ValueError = ValueError(message: string)

  const UsernameRequired := "The Username field must be set"
  const StaffRequired := "Superuser must have is_staff=True."
  const SuperuserRequired := "Superuser must have is_superuser=True."

  /** A user instance: its username, its password column as the object holds it, the other
      keyword fields it was built with, and the password column of its database row. */
  class User {
    var username: string
    var password: string
    var fields: map<string, PyValue>
    var storedPassword: Option<string>

    /** `User(username=..., password=..., **fields)`: built in memory, not yet saved. */
    constructor(username: string, password: string, fields: map<string, PyValue>)
      ensures this.username == username && this.password == password && this.fields == fields
      ensures storedPassword == None
    {
      this.username := username;
      this.password := password;
      this.fields := fields;
      storedPassword := None;
    }

    /** set_password: the hash of the raw password, or an unusable password when there is
        none (`randomString` stands for Django's random suffix). */
    method SetPassword(raw: Option<string>, digest: string -> string, randomString: string)
      modifies this
      ensures password == (if raw.Some? then MakePassword(digest, raw.value)
                           else UnusablePrefix + randomString)
      ensures username == old(username) && fields == old(fields)
      ensures storedPassword == old(storedPassword)
    {
      if raw.Some? {
        password := MakePassword(digest, raw.value);
      } else {
        password := UnusablePrefix + randomString;
      }
    }

    /** save: hashes a raw password in place, then writes the row. */
    method Save(digest: string -> string)
      modifies this
      ensures password == PasswordToStore(digest, old(password))
      ensures storedPassword == Some(password)
      ensures username == old(username) && fields == old(fields)
    {
      if password != "" && !StartsWith(password, HashPrefix) {
        password := MakePassword(digest, password);
      }
      storedPassword := Some(password);
    }
  }

  /** The password create_user leaves in the row. */
  function CreatedPassword(digest: string -> string, password: Option<string>,
                           randomString: string): string
  {
    PasswordToStore(digest, if password.Some? then MakePassword(digest, password.value)
                            else UnusablePrefix + randomString)
  }

  /** create_user hashes a given password once: saving does not hash it again. A user made
      without a password gets an unusable password, which lacks the tag, so saving does hash
      it, and the row ends up with a tagged hash of the unusable marker. */
  lemma CreatedPasswordHashedOnce(digest: string -> string, password: Option<string>,
                                  randomString: string)
    ensures password.Some? ==>
              CreatedPassword(digest, password, randomString) == MakePassword(digest, password.value)
    ensures password.None? ==>
              CreatedPassword(digest, password, randomString) ==
              MakePassword(digest, UnusablePrefix + randomString)
  {
    if password.Some? {
      assert StartsWith(MakePassword(digest, password.value), HashPrefix);
    } else {
      var marked := UnusablePrefix + randomString;
      assert marked[0] == '!' && HashPrefix[0] == 'p';
      assert !StartsWith(marked, HashPrefix);
    }
  }

  /** create_user. Python's argument binding keeps `username` and `password` out of the
      keyword fields. */
  method CreateUser(username: string, password: Option<string>, extraFields: map<string, PyValue>,
                    digest: string -> string, randomString: string)
    returns (r: Result<User, ValueError>)
    requires "username" !in extraFields && "password" !in extraFields
    ensures r.Err? <==> username == ""
    ensures r.Err? ==> r.error == ValueError(UsernameRequired)
    ensures r.Ok? ==> fresh(r.value) && r.value.username == username &&
                      r.value.fields == extraFields &&
                      r.value.password == CreatedPassword(digest, password, randomString) &&
                      r.value.storedPassword == Some(r.value.password)
  {
    if username == "" {
      return Err(ValueError(UsernameRequired));
    }
    var user := new User(username, "", extraFields);
    user.SetPassword(password, digest, randomString);
    user.Save(digest);
    r := Ok(user);
  }

  /** The value a keyword field has after `setdefault(key, True)`. */
  function DefaultTrue(fields: map<string, PyValue>, key: string): PyValue {
    if key in fields then fields[key] else PyTrue
  }

  /** create_superuser: missing staff and superuser flags default to True; a flag given as
      anything but True itself raises, the staff flag being checked first, and no user is
      made. Otherwise it is create_user with both flags set. */
  method CreateSuperuser(username: string, password: Option<string>,
                         extraFields: map<string, PyValue>, digest: string -> string,
                         randomString: string)
    returns (r: Result<User, ValueError>)
    requires "username" !in extraFields && "password" !in extraFields
    ensures DefaultTrue(extraFields, "is_staff") != PyTrue ==> r == Err(ValueError(StaffRequired))
    ensures DefaultTrue(extraFields, "is_staff") == PyTrue &&
            DefaultTrue(extraFields, "is_superuser") != PyTrue ==>
              r == Err(ValueError(SuperuserRequired))
    ensures DefaultTrue(extraFields, "is_staff") == PyTrue &&
            DefaultTrue(extraFields, "is_superuser") == PyTrue ==>
              (r.Err? <==> username == "") &&
              (r.Err? ==> r.error == ValueError(UsernameRequired)) &&
              (r.Ok? ==> fresh(r.value) && r.value.username == username &&
                         r.value.fields == extraFields["is_staff" := PyTrue]["is_superuser" := PyTrue] &&
                         r.value.password == CreatedPassword(digest, password, randomString) &&
                         r.value.storedPassword == Some(r.value.password))
  {
    var fields := extraFields;
    if "is_staff" !in fields {
      fields := fields["is_staff" := PyTrue];
    }
    if "is_superuser" !in fields {
      fields := fields["is_superuser" := PyTrue];
    }
    if fields["is_staff"] != PyTrue {
      return Err(ValueError(StaffRequired));
    }
    if fields["is_superuser"] != PyTrue {
      return Err(ValueError(SuperuserRequired));
    }
    assert fields == extraFields["is_staff" := PyTrue]["is_superuser" := PyTrue];
    r := CreateUser(username, password, fields, digest, randomString);
  }
}
