/** backend_v2/controllers/user_controller.py: the second copy of
    `UserController`. Its register_user, update_user_data and
    change_password are line for line those of backend/app/user_controller.py
    and are modelled once, in AppUserController; this module holds what
    differs: login_user without the length-logging line, and
    update_user_avatar. The User model it imports is that of
    backend/app/models/user.py. */
module V2UserController {
  import opened Common
  import opened AppUserModel
  import App = AppUserController

  const AvatarUpdated := "Avatar updated successfully"

  /** `login_user`: both fields are required; the email is sanitised and
      looked up; an unknown email and a wrong password give the same
      message; a password that is not a string against a stored hash makes
      the check raise. */
  function LoginUser(users: UserTable, email: Json, password: Json): (r: Result<User>)
    reads users, users.users
    ensures !PyTruthy(email) || !PyTruthy(password) ==> r == Err(App.RequiredLogin)
    ensures r.Ok? ==> && r.value in users.users && Some(r.value.email) == App.Sanitized(email)
                      && password.JStr? && r.value.CheckPassword(password.s)
    ensures PyTruthy(email) && PyTruthy(password) && users.ByEmail(App.Sanitized(email).value).None? ==>
              r == Err(App.InvalidCredentials)
  {
    if !PyTruthy(email) || !PyTruthy(password) then Err(App.RequiredLogin)
    else
      var e := App.Sanitized(email).value;
      match users.ByEmail(e)
      case None => Err(App.InvalidCredentials)
      case Some(u) =>
        match App.PasswordCheck(u, password)
        case None => Err(Failure("Login error"))
        case Some(ok) => if ok then Ok(u) else Err(App.InvalidCredentials)
  }

  /** A wrong password and an unknown email are told apart by nothing:
      for a string password, login either succeeds or gives the one
      "Invalid email or password". */
  lemma SameRefusal(users: UserTable, email: Json, password: string)
    requires PyTruthy(email) && password != ""
    ensures LoginUser(users, email, JStr(password)).Ok? || LoginUser(users, email, JStr(password)) == Err(App.InvalidCredentials)
    ensures LoginUser(users, email, JStr(password)).Ok? <==>
              var found := users.ByEmail(App.Sanitized(email).value);
              found.Some? && found.value.CheckPassword(password)
  {
    var found := users.ByEmail(App.Sanitized(email).value);
    if found.Some? {
      assert App.PasswordCheck(found.value, JStr(password)) == Some(found.value.CheckPassword(password));
    }
  }

  /** The two copies of login_user answer alike except for a truthy
      password without a length, which only the other copy's log line
      turns into an error; this copy refuses or fails such a password
      itself, and never lets it in. */
  lemma LoginCopiesAgree(users: UserTable, email: Json, password: Json)
    ensures !(PyTruthy(password) && PyLen(password).None?) ==>
              LoginUser(users, email, password) == App.LoginUser(users, email, password)
    ensures PyTruthy(password) && PyLen(password).None? ==>
              App.LoginUser(users, email, password) == Err(Failure("Login error"))
              && LoginUser(users, email, password).Err?
  {
  }

  /** `update_user_avatar`: "User not found" for an unknown id; otherwise
      only the user's avatar_url changes, and the reply is the message. */
  method UpdateUserAvatar(users: UserTable, userId: int, avatarUrl: string) returns (r: Result<string>)
    requires users.Valid()
    modifies users.users
    ensures users.Valid() && users.users == old(users.users)
    ensures r.Err? <==> old(users.Get(userId)).None?
    ensures r.Err? ==> r.msg == App.UserNotFound && forall v :: v in users.users ==> unchanged(v)
    ensures r.Ok? ==> r.value == AvatarUpdated
    ensures r.Ok? ==> var u := old(users.Get(userId)).value;
              && u.avatarUrl == avatarUrl
              && u.id == old(u.id) && u.username == old(u.username) && u.email == old(u.email)
              && u.passwordHash == old(u.passwordHash) && u.isAdmin == old(u.isAdmin) && u.role == old(u.role)
              && u.hasPremiumAccess == old(u.hasPremiumAccess) && u.googleId == old(u.googleId)
              && forall v :: v in users.users && v != u ==> unchanged(v)
  {
    var found := users.Get(userId);
    if found.None? {
      return Err(App.UserNotFound);
    }
    users.SetAvatar(found.value, avatarUrl);
    r := Ok(AvatarUpdated);
  }
}
