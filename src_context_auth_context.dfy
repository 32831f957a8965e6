/** src/context/AuthContext.jsx: the client-side accounts kept in
    public/users.json. The provider holds the list of users and the current
    user, and mirrors the current user to localStorage under 'user'. Items
    of the list are values parsed from JSON: reading `u.email` of a null
    item raises, and the handler's catch turns that into a failure reply. */
module ClientAuth {
  import opened Common
  import opened JsArrays

  const WrongCredentials := "Nieprawidłowy email lub hasło"
  const EmailTaken := "Użytkownik o tym adresie email już istnieje"
  const Beginner := "Początkujący"
  const AvatarBase := "https://i.pravatar.cc/200?img="

  /** `u.key` on an item of the list; Raises on null. */
  function Field(u: Json, key: string): (p: Prop)
    ensures p.Raises? <==> u.JNull?
  {
    match u
    case JNull => Raises
    case JObj(f) => if key in f then Value(f[key]) else Undefined
    case _ => Undefined
  }

  /** `u.key === v` for a string v. */
  predicate FieldIs(u: Json, key: string, v: string) {
    Field(u, key) == Value(JStr(v))
  }

  /** `u.email === email && u.password === password`. */
  predicate Credentials(u: Json, email: string, password: string) {
    FieldIs(u, "email", email) && FieldIs(u, "password", password)
  }

  /** The users before index i are no null and do not match. */
  predicate PassedBefore(users: seq<Json>, i: int, email: string, password: string)
    requires 0 <= i <= |users|
  {
    forall j :: 0 <= j < i ==> !users[j].JNull? && !Credentials(users[j], email, password)
  }

  /** `users.find(...)` for login: the first user with both, none, or the
      TypeError of a null met first. */
  function FindUser(users: seq<Json>, email: string, password: string): (r: Prop)
    ensures r.Value? ==> Credentials(r.v, email, password) && r.v in users
    ensures r.Value? ==> exists i :: 0 <= i < |users| && users[i] == r.v && PassedBefore(users, i, email, password)
    ensures r.Undefined? <==> forall i :: 0 <= i < |users| ==> !users[i].JNull? && !Credentials(users[i], email, password)
    ensures r.Raises? ==> exists i :: 0 <= i < |users| && users[i].JNull?
  {
    if users == [] then Undefined
    else if users[0].JNull? then Raises
    else if Credentials(users[0], email, password) then Value(users[0])
    else
      var rest := FindUser(users[1..], email, password);
      assert forall i :: 1 <= i < |users| ==> users[i] == users[1..][i - 1];
      if rest.Value? then
        assert exists i :: 0 <= i < |users| && users[i] == rest.v && PassedBefore(users, i, email, password) by {
          var k :| 0 <= k < |users[1..]| && users[1..][k] == rest.v && PassedBefore(users[1..], k, email, password);
          assert users[k + 1] == rest.v;
          forall j | 0 <= j < k + 1
            ensures !users[j].JNull? && !Credentials(users[j], email, password)
          {
            if j > 0 {
              assert users[j] == users[1..][j - 1];
            }
          }
        }
        rest
      else rest
  }

  /** `users.some(u => u.email === email)`; None is the TypeError of a null
      met first. */
  function EmailInUse(users: seq<Json>, email: string): (r: Option<bool>)
    ensures r == Some(true) ==> exists i :: 0 <= i < |users| && FieldIs(users[i], "email", email)
    ensures r == Some(false) <==> forall i :: 0 <= i < |users| ==> !users[i].JNull? && !FieldIs(users[i], "email", email)
  {
    if users == [] then Some(false)
    else if users[0].JNull? then None
    else if FieldIs(users[0], "email", email) then Some(true)
    else
      assert forall i :: 1 <= i < |users| ==> users[i] == users[1..][i - 1];
      EmailInUse(users[1..], email)
  }

  /** `{ ...u }` without its password. */
  function WithoutPassword(u: map<string, Json>): (r: map<string, Json>)
    ensures "password" !in r && r.Keys == u.Keys - {"password"}
    ensures forall k :: k in r ==> r[k] == u[k]
  {
    u - {"password"}
  }

  /** The record register builds for the (n + 1)-th user. */
  function NewUser(n: nat, name: string, email: string, password: string): map<string, Json> {
    map["id" := JStr(NatToString(n + 1)), "name" := JStr(name), "email" := JStr(email),
        "password" := JStr(password), "level" := JStr(Beginner),
        "stats" := JObj(map["quizzes" := JInt(0), "bestTime" := JStr("0min"), "correctAnswers" := JInt(0)]),
        "avatar" := JStr(AvatarBase + NatToString(n + 1))]
  }

  function Success(): map<string, Json> {
    map["success" := JBool(true)]
  }

  function Refusal(error: string): map<string, Json> {
    map["success" := JBool(false), "error" := JStr(error)]
  }

  class AuthProvider {
    /** The current user, null when nobody is logged in. */
    var user: Option<map<string, Json>>
    var users: seq<Json>
    /** localStorage['user']. */
    var stored: Option<map<string, Json>>

    /** The mount effect: the stored user becomes the current one, and the
        list is what users.json held ([] when the fetch failed). */
    constructor (stored: Option<map<string, Json>>, users: seq<Json>)
      ensures user == stored && this.stored == stored && this.users == users
    {
      user := stored;
      this.stored := stored;
      this.users := users;
    }

    /** login: the first user with that email and password becomes the
        current user, without the password; otherwise the state does not
        change. */
    method Login(email: string, password: string) returns (r: map<string, Json>)
      modifies this
      ensures users == old(users)
      ensures match FindUser(old(users), email, password)
        case Value(u) =>
          && u.JObj?
          && r == Success()
          && user == Some(WithoutPassword(u.fields)) && stored == user
        case Undefined => r == Refusal(WrongCredentials) && user == old(user) && stored == old(stored)
        case Raises => r == Refusal(ExceptionText) && user == old(user) && stored == old(stored)
    {
      var found := FindUser(users, email, password);
      match found
      case Undefined =>
        return Refusal(WrongCredentials);
      case Raises =>
        return Refusal(ExceptionText);
      case Value(u) =>
        var copy := u.fields - {"password"};
        user := Some(copy);
        stored := Some(copy);
        r := Success();
    }

    /** register: a new user, appended, who becomes the current user; an
        email already in use is refused. `saveFailure` is the error of the
        PUT to users.json, if it fails; then nothing changes. */
    method Register(name: string, email: string, password: string, saveFailure: Option<string>)
      returns (r: map<string, Json>)
      modifies this
      ensures var taken := EmailInUse(old(users), email);
        && (taken == Some(true) ==> r == Refusal(EmailTaken) && users == old(users) && user == old(user) && stored == old(stored))
        && (taken.None? ==> r == Refusal(ExceptionText) && users == old(users) && user == old(user) && stored == old(stored))
        && (taken == Some(false) && saveFailure.Some? ==>
              r == Refusal(saveFailure.value) && users == old(users) && user == old(user) && stored == old(stored))
        && (taken == Some(false) && saveFailure.None? ==>
              var added := NewUser(|old(users)|, name, email, password);
              && users == old(users) + [JObj(added)]
              && user == Some(WithoutPassword(added)) && stored == user
              && r == Success())
    {
      var taken := EmailInUse(users, email);
      if taken == Some(true) {
        return Refusal(EmailTaken);
      }
      if taken.None? {
        return Refusal(ExceptionText);
      }
      var added := NewUser(|users|, name, email, password);
      var updated := users + [JObj(added)];
      if saveFailure.Some? {
        return Refusal(saveFailure.value);
      }
      users := updated;
      var copy := added - {"password"};
      user := Some(copy);
      stored := Some(copy);
      r := Success();
    }

    /** logout: nobody is logged in and nothing is stored. */
    method Logout()
      modifies this
      ensures user.None? && stored.None? && users == old(users)
    {
      user := None;
      stored := None;
    }
  }

  // ---------------------------------------------------------------------
  // Properties of the lookups

  /** On a list with no null, login finds a user exactly when some user
      has that email and that password. */
  lemma LoginSucceedsIff(users: seq<Json>, email: string, password: string)
    requires NoNull(users)
    ensures FindUser(users, email, password).Value? <==>
      exists i :: 0 <= i < |users| && Credentials(users[i], email, password)
  {
    if exists i :: 0 <= i < |users| && Credentials(users[i], email, password) {
      var i :| 0 <= i < |users| && Credentials(users[i], email, password);
      assert !FindUser(users, email, password).Undefined?;
    }
  }

  /** The user a login finds has an email and a password, and the current
      user it sets keeps everything else. */
  lemma LoggedInUserFields(users: seq<Json>, email: string, password: string)
    requires FindUser(users, email, password).Value?
    ensures var u := FindUser(users, email, password).v;
      && u.JObj? && u.fields["email"] == JStr(email)
      && WithoutPassword(u.fields)["email"] == JStr(email)
      && WithoutPassword(u.fields).Keys == u.fields.Keys - {"password"}
  {
  }

  /** The registered user's record: the next id, the beginner level and
      zero statistics; the current user is that record without the
      password. */
  lemma NewUserFields(n: nat, name: string, email: string, password: string)
    ensures var u := NewUser(n, name, email, password);
      && u["id"] == JStr(NatToString(n + 1))
      && u["level"] == JStr(Beginner)
      && u["stats"].JObj? && u["stats"].fields["quizzes"] == JInt(0) && u["stats"].fields["correctAnswers"] == JInt(0)
      && WithoutPassword(u).Keys == {"id", "name", "email", "level", "stats", "avatar"}
  {
  }

  /** A second registration with the same email is refused: after a
      registration the email is in use. */
  lemma RegisteredEmailInUse(users: seq<Json>, n: nat, name: string, email: string, password: string)
    requires EmailInUse(users, email) == Some(false)
    ensures EmailInUse(users + [JObj(NewUser(n, name, email, password))], email) == Some(true)
  {
    EmailAppended(users, JObj(NewUser(n, name, email, password)), email);
  }

  lemma {:induction false} EmailAppended(users: seq<Json>, u: Json, email: string)
    requires forall i :: 0 <= i < |users| ==> !users[i].JNull? && !FieldIs(users[i], "email", email)
    requires FieldIs(u, "email", email)
    ensures EmailInUse(users + [u], email) == Some(true)
  {
    if users != [] {
      assert (users + [u])[1..] == users[1..] + [u];
      EmailAppended(users[1..], u, email);
    }
  }

  /** A user who registered can then log in with the same email and
      password, unless an earlier user has both. */
  lemma RegisteredCanLogIn(users: seq<Json>, n: nat, name: string, email: string, password: string)
    requires EmailInUse(users, email) == Some(false)
    ensures var added := NewUser(n, name, email, password);
      FindUser(users + [JObj(added)], email, password) == Value(JObj(added))
  {
    var added := NewUser(n, name, email, password);
    FindAppended(users, JObj(added), email, password);
  }

  lemma {:induction false} FindAppended(users: seq<Json>, u: Json, email: string, password: string)
    requires forall i :: 0 <= i < |users| ==> !users[i].JNull? && !FieldIs(users[i], "email", email)
    requires Credentials(u, email, password)
    ensures FindUser(users + [u], email, password) == Value(u)
  {
    if users != [] {
      assert (users + [u])[1..] == users[1..] + [u];
      FindAppended(users[1..], u, email, password);
    }
  }
}
