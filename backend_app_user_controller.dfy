/** backend/app/user_controller.py: the token blacklist manager, the
    revocation callback the JWT extension calls for every protected route,
    and the login, registration, profile-update and password-change
    operations of the main backend. Request values are `Json`; the clock is
    the integer `now`; `dbFails` stands for a database error inside a
    `try` that the code turns into its fallback result. */
module AppUserController {
  import opened Common
  import opened BackendHelpers
  import opened AppUserModel
  import opened AppBlacklistedToken

  const UserWideType := "all_user_tokens"
  /** `timedelta(hours=1)`: a user-wide entry blocks tokens for one hour. */
  const UserWideLifetime := 3600

  // ---------------------------------------------------------------------
  // TokenBlacklistManager

  /** `blacklist_token`: adds the token's row with the user id as text.
      The commit fails, and False is returned with nothing added, when the
      jti is already blacklisted. */
  method BlacklistToken(t: BlacklistTable, jti: string, tokenType: string, userId: Json, expiresAt: int, now: int)
    returns (ok: bool)
    requires t.Valid()
    modifies t
    ensures t.Valid()
    ensures ok <==> !old(t.IsBlacklisted(jti))
    ensures ok ==> t.rows == old(t.rows) + [BlacklistedToken(old(t.NextId()), jti, tokenType, PyStr(userId), now, expiresAt)]
    ensures !ok ==> t.rows == old(t.rows)
    ensures IsTokenBlacklisted(t.rows, jti, JNull, now, false)
  {
    ok := t.Add(jti, tokenType, PyStr(userId), expiresAt, now);
  }

  /** The jti of a user-wide entry; `stamp` stands for the text of
      `datetime.utcnow().timestamp()`. */
  function UserWideJti(userId: string, stamp: string): (jti: string)
    ensures StartsWith(jti, "user_logout_all_" + userId + "_")
  {
    "user_logout_all_" + userId + "_" + stamp
  }

  /** `blacklist_all_user_tokens`: one 'all_user_tokens' row for the user
      that expires an hour from now. Until then every token of the user is
      revoked, whatever its jti. */
  method BlacklistAllUserTokens(t: BlacklistTable, userId: Json, now: int, stamp: string) returns (ok: bool)
    requires t.Valid()
    modifies t
    ensures t.Valid()
    ensures ok <==> !old(t.IsBlacklisted(UserWideJti(PyStr(userId), stamp)))
    ensures ok ==> t.rows == old(t.rows) + [BlacklistedToken(old(t.NextId()), UserWideJti(PyStr(userId), stamp),
                                                             UserWideType, PyStr(userId), now, now + UserWideLifetime)]
    ensures !ok ==> t.rows == old(t.rows)
    ensures ok && PyTruthy(userId) ==>
              forall jti, later :: now <= later < now + UserWideLifetime ==> IsTokenBlacklisted(t.rows, jti, userId, later, false)
  {
    var uid := PyStr(userId);
    ok := t.Add(UserWideJti(uid, stamp), UserWideType, uid, now + UserWideLifetime, now);
    if ok {
      var row := t.rows[|t.rows| - 1];
      assert row.userId == uid && row.tokenType == UserWideType && row.expiresAt == now + UserWideLifetime;
      forall jti, later | now <= later < now + UserWideLifetime && PyTruthy(userId)
        ensures IsTokenBlacklisted(t.rows, jti, userId, later, false)
      {
        assert Revokes(t.rows[|t.rows| - 1], jti, userId, later);
      }
    }
  }

  /** A row revokes a token when it has the token's jti, or when it is an
      unexpired user-wide entry of the token's (truthy) user id. */
  predicate Revokes(row: BlacklistedToken, jti: string, userId: Json, now: int) {
    || row.jti == jti
    || (PyTruthy(userId) && row.userId == PyStr(userId) && row.tokenType == UserWideType && row.expiresAt > now)
  }

  /** `is_token_blacklisted`: the jti lookup, then the user-wide lookup when
      a user id is given. A database error counts as "not blacklisted". */
  function IsTokenBlacklisted(rows: seq<BlacklistedToken>, jti: string, userId: Json, now: int, dbFails: bool): (b: bool)
    ensures dbFails ==> !b
    ensures b <==> !dbFails && exists i :: 0 <= i < |rows| && Revokes(rows[i], jti, userId, now)
  {
    if dbFails then false
    else if HasJti(rows, jti) then true
    else if PyTruthy(userId) then
      var r := HasUserWideEntry(rows, PyStr(userId), now);
      assert r ==> exists i :: 0 <= i < |rows| && Revokes(rows[i], jti, userId, now);
      r
    else false
  }

  /** A user-wide entry stops revoking once `now` reaches its expiry. */
  lemma UserWideEntryExpires(rows: seq<BlacklistedToken>, jti: string, userId: Json, now: int)
    requires forall i :: 0 <= i < |rows| ==> rows[i].jti != jti
    requires forall i :: 0 <= i < |rows| ==> rows[i].expiresAt <= now
    ensures !IsTokenBlacklisted(rows, jti, userId, now, false)
  {
  }

  /** Clean-up at `now` never changes the answer for a moment at or after
      `now` about the user-wide entries. */
  lemma CleanupKeepsUserWide(rows: seq<BlacklistedToken>, userId: string, now: int, later: int)
    requires now <= later
    ensures HasUserWideEntry(Unexpired(rows, now), userId, later) == HasUserWideEntry(rows, userId, later)
  {
    if HasUserWideEntry(rows, userId, later) {
      var i :| 0 <= i < |rows| && rows[i].userId == userId && rows[i].tokenType == "all_user_tokens"
                && rows[i].expiresAt > later;
      UnexpiredKept(rows, now, rows[i]);
      var k := Unexpired(rows, now);
      var j :| 0 <= j < |k| && k[j] == rows[i];
      assert k[j].userId == userId && k[j].tokenType == "all_user_tokens" && k[j].expiresAt > later;
    }
  }

  /** The user id the revocation callback passes on: a truthy string
      subject is converted with int(), and None replaces it when that
      fails; any other subject is passed as it is. */
  function SubjectOf(sub: Json): (u: Json)
    ensures !(PyTruthy(sub) && sub.JStr?) ==> u == sub
    ensures PyTruthy(sub) && sub.JStr? ==> (u.JNull? <==> ParsePyInt(sub.s).None?)
  {
    if PyTruthy(sub) && sub.JStr? then
      match ParsePyInt(sub.s)
      case Some(n) => JInt(n)
      case None => JNull
    else sub
  }

  /** `check_if_token_revoked`: a payload without a truthy jti is blocked;
      otherwise the blacklist decides. The jti is compared as text. */
  function CheckIfTokenRevoked(rows: seq<BlacklistedToken>, payload: map<string, Json>, now: int, dbFails: bool): (b: bool)
    ensures !PyTruthy(GetOr(payload, "jti", JNull)) ==> b
    ensures PyTruthy(GetOr(payload, "jti", JNull)) ==>
              b == IsTokenBlacklisted(rows, PyStr(payload["jti"]), SubjectOf(GetOr(payload, "sub", JNull)), now, dbFails)
  {
    var jti := GetOr(payload, "jti", JNull);
    if !PyTruthy(jti) then true
    else IsTokenBlacklisted(rows, PyStr(jti), SubjectOf(GetOr(payload, "sub", JNull)), now, dbFails)
  }

  /** A subject that is not an integer turns the user-wide check off: only
      the jti lookup is left. */
  lemma NonIntegerSubjectOnlyJti(rows: seq<BlacklistedToken>, payload: map<string, Json>, now: int)
    requires PyTruthy(GetOr(payload, "jti", JNull))
    requires GetOr(payload, "sub", JNull).JStr? && ParsePyInt(GetOr(payload, "sub", JNull).s).None?
    ensures CheckIfTokenRevoked(rows, payload, now, false) == HasJti(rows, PyStr(payload["jti"]))
  {
    var sub := GetOr(payload, "sub", JNull);
    if sub.s == "" {
      assert SubjectOf(sub) == sub && !PyTruthy(sub);
    } else {
      assert SubjectOf(sub) == JNull;
    }
  }

  // ---------------------------------------------------------------------
  // UserController

  const RequiredLogin := "Email and password are required"
  const InvalidCredentials := "Invalid email or password"
  const RequiredRegister := "Email, username and password are required"
  const InvalidEmailFormat := "Invalid email format"
  const EmailExists := "Email already exists"
  const PasswordTooShort := "Password must be at least 8 characters long"
  const UserNotFound := "User not found"
  const EmailInUse := "Email already in use"
  const InvalidCurrentPassword := "Invalid current password"
  const PasswordChanged := "Password changed successfully"

  /** The text a request value becomes after `sanitize_input`. */
  function Sanitized(j: Json): (r: Option<string>)
    ensures r.None? <==> j.JNull?
  {
    SanitizeInput(InputOf(j))
  }

  /** `check_password` for a request value: no stored hash gives False
      before the password is looked at; a stored hash and a password that
      is not a string make werkzeug raise (None here). */
  function PasswordCheck(u: User, password: Json): (r: Option<bool>)
    reads u
    ensures u.passwordHash == "" ==> r == Some(false)
    ensures u.passwordHash != "" && password.JStr? ==> r == Some(u.CheckPassword(password.s))
    ensures r.None? <==> u.passwordHash != "" && !password.JStr?
  {
    if u.passwordHash == "" then Some(false)
    else if password.JStr? then Some(u.CheckPassword(password.s))
    else None
  }

  /** `login_user`: the log line first takes the length of a truthy
      password, which raises for one without a length; then both fields
      are required; the email is sanitised and looked up; an unknown email
      and a wrong password give the same message. */
  function LoginUser(users: UserTable, email: Json, password: Json): (r: Result<User>)
    reads users, users.users
    ensures PyTruthy(password) && PyLen(password).None? ==> r == Err(Failure("Login error"))
    ensures !PyTruthy(password) || (!PyTruthy(email) && PyLen(password).Some?) ==> r == Err(RequiredLogin)
    ensures r.Ok? ==> && r.value in users.users && Some(r.value.email) == Sanitized(email)
                      && password.JStr? && r.value.CheckPassword(password.s)
    ensures PyTruthy(email) && PyTruthy(password) && password.JStr? ==> r.Ok? || r == Err(InvalidCredentials)
    ensures PyTruthy(email) && PyTruthy(password) && PyLen(password).Some? && users.ByEmail(Sanitized(email).value).None? ==>
              r == Err(InvalidCredentials)
  {
    if PyTruthy(password) && PyLen(password).None? then Err(Failure("Login error"))
    else if !PyTruthy(email) || !PyTruthy(password) then Err(RequiredLogin)
    else
      var e := Sanitized(email).value;
      match users.ByEmail(e)
      case None => Err(InvalidCredentials)
      case Some(u) =>
        match PasswordCheck(u, password)
        case None => Err(Failure("Login error"))
        case Some(ok) => if ok then Ok(u) else Err(InvalidCredentials)
  }

  /** With unique emails, login succeeds exactly when some user has the
      sanitised email and the password. */
  lemma LoginSucceedsIff(users: UserTable, email: Json, password: string)
    requires users.Valid() && PyTruthy(email) && password != ""
    ensures LoginUser(users, email, JStr(password)).Ok? <==>
              exists u :: u in users.users && Some(u.email) == Sanitized(email) && u.CheckPassword(password)
  {
    var e := Sanitized(email).value;
    LoginByLookup(users, email, password, e);
    if u :| u in users.users && Some(u.email) == Sanitized(email) && u.CheckPassword(password) {
      var found := users.ByEmail(e);
      assert found.Some?;
      EmailsUnique(users, u, found.value);
    }
  }

  /** With a string password, login succeeds exactly when the user the
      email lookup finds has that password. */
  lemma LoginByLookup(users: UserTable, email: Json, password: string, e: string)
    requires PyTruthy(email) && password != "" && Sanitized(email) == Some(e)
    ensures var found := users.ByEmail(e);
      LoginUser(users, email, JStr(password)).Ok? <==> found.Some? && found.value.CheckPassword(password)
  {
    var found := users.ByEmail(e);
    if found.Some? {
      assert PasswordCheck(found.value, JStr(password)) == Some(found.value.CheckPassword(password));
    }
  }

  /** The sanitised text of a body value that `get(key, '')` returns. */
  function Field(data: map<string, Json>, key: string): Option<string> {
    Sanitized(GetOr(data, key, JStr("")))
  }

  predicate Blank(t: Option<string>) {
    t.None? || t.value == ""
  }

  /** Why `register_user` turns the body away, in the order it checks:
      required fields, then the email's format, then that the email is
      free, then the password's length; None when it goes on to create
      the user. */
  function RegisterRefusal(users: UserTable, data: map<string, Json>): (e: Option<string>)
    reads users, users.users
    ensures var email, username, password := Field(data, "email"), Field(data, "username"), GetOr(data, "password", JStr(""));
      && (e == Some(RequiredRegister) <==> Blank(email) || Blank(username) || !PyTruthy(password))
      && (e == Some(InvalidEmailFormat) <==>
            !(Blank(email) || Blank(username) || !PyTruthy(password)) && !ValidateEmail(email))
      && (e == Some(EmailExists) <==>
            !(Blank(email) || Blank(username) || !PyTruthy(password)) && ValidateEmail(email)
            && users.ByEmail(email.value).Some?)
      && (e == Some(PasswordTooShort) <==>
            !(Blank(email) || Blank(username) || !PyTruthy(password)) && ValidateEmail(email)
            && users.ByEmail(email.value).None? && PyLen(password).Some? && PyLen(password).value < 8)
      && (e.None? <==>
            !(Blank(email) || Blank(username) || !PyTruthy(password)) && ValidateEmail(email)
            && users.ByEmail(email.value).None? && password.JStr? && |password.s| >= 8)
  {
    var email, username, password := Field(data, "email"), Field(data, "username"), GetOr(data, "password", JStr(""));
    if Blank(email) || Blank(username) || !PyTruthy(password) then Some(RequiredRegister)
    else if !ValidateEmail(email) then Some(InvalidEmailFormat)
    else if users.ByEmail(email.value).Some? then Some(EmailExists)
    else match PyLen(password)
      case None => Some(Failure("Registration error"))
      case Some(n) =>
        if n < 8 then Some(PasswordTooShort)
        // generate_password_hash raises for a list or a dict
        else if !password.JStr? then Some(Failure("Registration error"))
        else None
  }

  /** `register_user`: the checks of RegisterRefusal, then the new user,
      who is not an admin and has the password's hash. A failure adds
      nothing. */
  method RegisterUser(users: UserTable, data: map<string, Json>, now: int) returns (r: Result<User>)
    requires users.Valid()
    modifies users
    ensures users.Valid()
    ensures old(RegisterRefusal(users, data)).Some? ==>
              r == Err(old(RegisterRefusal(users, data)).value) && users.users == old(users.users)
    ensures old(RegisterRefusal(users, data)).None? ==>
              r.Ok? && fresh(r.value) && users.users == old(users.users) + [r.value]
    ensures r.Ok? ==> && r.value.email == Field(data, "email").value
                      && r.value.username == Field(data, "username").value
                      && !r.value.isAdmin && r.value.role == "user"
                      && r.value.CheckPassword(GetOr(data, "password", JStr("")).s)
  {
    var email, username, password := Field(data, "email"), Field(data, "username"), GetOr(data, "password", JStr(""));
    if Blank(email) || Blank(username) || !PyTruthy(password) {
      return Err(RequiredRegister);
    }
    if !ValidateEmail(email) {
      return Err(InvalidEmailFormat);
    }
    if users.ByEmail(email.value).Some? {
      return Err(EmailExists);
    }
    var len := PyLen(password);
    if len.None? {
      return Err(Failure("Registration error"));
    }
    if len.value < 8 {
      return Err(PasswordTooShort);
    }
    if !password.JStr? {
      return Err(Failure("Registration error"));
    }
    var u := CreateUser(users, username.value, email.value, password.s, now);
    r := Ok(u);
  }

  /** `User(email=…, username=…, is_admin=False)`, `set_password`, then
      `add` and `commit`. */
  method CreateUser(users: UserTable, username: string, email: string, password: string, now: int)
    returns (u: User)
    requires users.Valid() && users.ByEmail(email).None?
    modifies users
    ensures users.Valid() && fresh(u) && users.users == old(users.users) + [u]
    ensures u.email == email && u.username == username && !u.isAdmin && u.role == "user"
    ensures u.CheckPassword(password)
  {
    u := users.Insert(username, email, now);
    users.SetPasswordOf(u, password);
  }

  /** The new value `update_user_data` writes to a text column: the
      sanitised request value when the key is present with a truthy value
      and the result is non-empty and differs from the current one. */
  function Change(data: map<string, Json>, key: string, current: string): (c: Option<string>)
    ensures c.Some? ==> key in data && PyTruthy(data[key]) && c.value != "" && c.value != current
    ensures c.Some? ==> Some(c.value) == Sanitized(data[key])
    ensures key !in data || !PyTruthy(data[key]) ==> c.None?
  {
    if key in data && PyTruthy(data[key]) then
      var v := Sanitized(data[key]);
      if v.Some? && v.value != "" && v.value != current then v else None
    else None
  }

  /** The refusal `update_user_data` gives, in its order: an unknown
      user, then a changed email that is malformed or already used. */
  function UpdateDataError(users: UserTable, userId: int, data: map<string, Json>): (e: Option<string>)
    reads users, users.users
    ensures users.Get(userId).None? ==> e == Some(UserNotFound)
    ensures e.Some? ==> e.value in {UserNotFound, InvalidEmailFormat, EmailInUse}
    ensures users.Get(userId).Some? && Change(data, "email", users.Get(userId).value.email).None? ==> e.None?
  {
    match users.Get(userId)
    case None => Some(UserNotFound)
    case Some(u) =>
      var email := Change(data, "email", u.email);
      if email.Some? && !ValidateEmail(email) then Some(InvalidEmailFormat)
      else if email.Some? && users.ByEmail(email.value).Some? then Some(EmailInUse)
      else None
  }

  /** `update_user_data`: an unknown user is an error; a changed email
      must be valid and unused. On success the username and email take
      their new values where `Change` gives one, nothing else changes, the
      reply is the user's dictionary, and the session is committed only if
      something changed. On an error nothing is stored. */
  method UpdateUserData(users: UserTable, userId: int, data: map<string, Json>)
    returns (r: Result<map<string, Json>>, committed: bool)
    requires users.Valid()
    modifies users.users
    ensures users.Valid() && users.users == old(users.users)
    ensures old(users.Get(userId)).None? ==> r == Err(UserNotFound)
    ensures r.Err? ==> !committed && forall v :: v in users.users ==> unchanged(v)
    ensures r.Err? <==> old(UpdateDataError(users, userId, data)).Some?
    ensures r.Err? ==> r.msg == old(UpdateDataError(users, userId, data)).value
    ensures old(users.Get(userId)).Some? ==>
      var u := old(users.Get(userId)).value;
      var name, email := Change(data, "username", old(u.username)), Change(data, "email", old(u.email));
      && (r == Err(InvalidEmailFormat) <==> email.Some? && !ValidateEmail(email))
      && (r == Err(EmailInUse) <==> email.Some? && ValidateEmail(email) && old(users.ByEmail(email.value)).Some?)
      && (r.Ok? <==> email.None? || (ValidateEmail(email) && old(users.ByEmail(email.value)).None?))
      && (r.Ok? ==> && u.username == (if name.Some? then name.value else old(u.username))
                    && u.email == (if email.Some? then email.value else old(u.email))
                    && u.passwordHash == old(u.passwordHash) && u.role == old(u.role)
                    && u.isAdmin == old(u.isAdmin) && u.googleId == old(u.googleId)
                    && u.hasPremiumAccess == old(u.hasPremiumAccess) && u.avatarUrl == old(u.avatarUrl)
                    && (forall v :: v in users.users && v != u ==> unchanged(v))
                    && r.value == u.ToDict()
                    && (committed <==> name.Some? || email.Some?))
  {
    committed := false;
    var found := users.Get(userId);
    if found.None? {
      return Err(UserNotFound), false;
    }
    var u := found.value;
    var name, email := Change(data, "username", u.username), Change(data, "email", u.email);
    if email.Some? {
      if !ValidateEmail(email) {
        return Err(InvalidEmailFormat), false;
      }
      if users.ByEmail(email.value).Some? {
        return Err(EmailInUse), false;
      }
    }
    ApplyProfileChange(users, u, name, email);
    committed := name.Some? || email.Some?;
    r := Ok(u.ToDict());
  }

  /** Writes the new username and email where one is given. */
  method ApplyProfileChange(users: UserTable, u: User, name: Option<string>, email: Option<string>)
    requires users.Valid() && u in users.users
    requires email.Some? ==> users.ByEmail(email.value).None?
    modifies u
    ensures users.Valid()
    ensures u.username == (if name.Some? then name.value else old(u.username))
    ensures u.email == (if email.Some? then email.value else old(u.email))
    ensures u.id == old(u.id) && u.passwordHash == old(u.passwordHash) && u.role == old(u.role)
    ensures u.isAdmin == old(u.isAdmin) && u.googleId == old(u.googleId) && u.avatarUrl == old(u.avatarUrl)
    ensures u.hasPremiumAccess == old(u.hasPremiumAccess) && u.premiumSince == old(u.premiumSince)
    ensures u.createdAt == old(u.createdAt)
  {
    if email.Some? {
      users.SetEmail(u, email.value);
    }
    if name.Some? {
      users.SetUsername(u, name.value);
    }
  }

  /** `change_password`: the current password is checked before the new
      one's length; on success only the hash changes. */
  method ChangePassword(users: UserTable, userId: int, current: Json, newPassword: Json) returns (r: Result<string>)
    requires users.Valid()
    modifies users.users
    ensures users.Valid() && users.users == old(users.users)
    ensures r.Err? ==> forall v :: v in users.users ==> unchanged(v)
    ensures old(users.Get(userId)).None? ==> r == Err(UserNotFound)
    ensures old(users.Get(userId)).Some? ==>
      var u := old(users.Get(userId)).value;
      && (r == Err(InvalidCurrentPassword) <==> old(PasswordCheck(u, current)) == Some(false))
      && (r == Err(PasswordTooShort) <==>
            old(PasswordCheck(u, current)) == Some(true) && PyLen(newPassword).Some? && PyLen(newPassword).value < 8)
      && (r.Ok? <==> old(PasswordCheck(u, current)) == Some(true) && newPassword.JStr? && |newPassword.s| >= 8)
      && (r.Ok? ==> && r.value == PasswordChanged && u.CheckPassword(newPassword.s)
                    && u.username == old(u.username) && u.email == old(u.email) && u.role == old(u.role)
                    && (forall v :: v in users.users && v != u ==> unchanged(v)))
  {
    var found := users.Get(userId);
    if found.None? {
      return Err(UserNotFound);
    }
    var u := found.value;
    var check := PasswordCheck(u, current);
    if check.None? {
      return Err(Failure("Password change error"));
    }
    if !check.value {
      return Err(InvalidCurrentPassword);
    }
    var len := PyLen(newPassword);
    if len.None? {
      return Err(Failure("Password change error"));
    }
    if len.value < 8 {
      return Err(PasswordTooShort);
    }
    if !newPassword.JStr? {
      return Err(Failure("Password change error"));
    }
    users.SetPasswordOf(u, newPassword.s);
    r := Ok(PasswordChanged);
  }
}
