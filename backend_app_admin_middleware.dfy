/** backend/app/admin_middleware.py: the user a JWT identity names, and the
    three access rules built on it. The identity is the token's `sub` as a
    JSON value; a database error inside the rules is the `Raised` outcome. */
module AppAdminMiddleware {
  import opened Common
  import opened AppUserModel

  /** `str.isdigit()` on ASCII text: non-empty and all digits. */
  predicate IsDigitText(s: string) {
    s != [] && forall i :: 0 <= i < |s| ==> IsAsciiDigit(s[i])
  }

  /** The first query an identity leads to. */
  datatype Lookup = ById(id: int) | ByGoogle(gid: string) | Unsupported

  /** A digit string shorter than 10 characters and an int (a bool is an
      int in Python) are primary keys; any other string is a google_id;
      other values cannot be bound as a query parameter. */
  function FirstLookup(identity: Json): (l: Lookup)
    ensures identity.JInt? ==> l == ById(identity.n)
    ensures identity.JStr? && IsDigitText(identity.s) && |identity.s| < 10 ==> l.ById?
    ensures identity.JStr? && !(IsDigitText(identity.s) && |identity.s| < 10) ==> l == ByGoogle(identity.s)
    ensures l.Unsupported? <==> !(identity.JInt? || identity.JBool? || identity.JStr?)
  {
    match identity
    case JStr(s) =>
      if IsDigitText(s) && |s| < 10 then
        assert DigitsOrUnderscores(s);
        ById(DigitsValue(s))
      else ByGoogle(s)
    case JInt(n) => ById(n)
    case JBool(b) => ById(if b then 1 else 0)
    case _ => Unsupported
  }

  /** `int(s)` of a short digit string is the value of its digits. */
  lemma ShortDigitIdentityIsItsValue(s: string)
    requires IsDigitText(s) && |s| < 10
    ensures DigitsOrUnderscores(s) && ParsePyInt(s) == Some(DigitsValue(s))
    ensures FirstLookup(JStr(s)) == ById(DigitsValue(s))
  {
    assert IsDecimalLiteral(s);
    ParsePlainLiteral(s);
  }

  datatype Resolution = Found(user: User) | NotFound | Raised

  /** The lookup of the three rules: the first query, then, for a string
      identity still not found, the google_id query. */
  function ResolveIdentity(users: UserTable, identity: Json): (r: Resolution)
    reads users, users.users
    ensures r.Raised? <==> FirstLookup(identity).Unsupported?
    ensures r.Found? ==> r.user in users.users
    ensures identity.JInt? ==> r == (match users.Get(identity.n) case Some(u) => Found(u) case None => NotFound)
    ensures FirstLookup(identity).ByGoogle? ==>
              r == (match users.ByGoogleId(identity.s) case Some(u) => Found(u) case None => NotFound)
    ensures FirstLookup(identity).ById? && identity.JStr? ==>
              (r.Found? <==> users.Get(FirstLookup(identity).id).Some? || users.ByGoogleId(identity.s).Some?)
  {
    var first :=
      match FirstLookup(identity)
      case ById(id) => (match users.Get(id) case Some(u) => Found(u) case None => NotFound)
      case ByGoogle(gid) => (match users.ByGoogleId(gid) case Some(u) => Found(u) case None => NotFound)
      case Unsupported => Raised;
    if first.NotFound? && identity.JStr? then
      match users.ByGoogleId(identity.s)
      case Some(u) => Found(u)
      case None => NotFound
    else first
  }

  /** A digit string of 10 or more characters is only ever a google_id. */
  lemma LongDigitIdentityIsGoogleId(users: UserTable, s: string)
    requires IsDigitText(s) && |s| >= 10
    ensures ResolveIdentity(users, JStr(s)).Found? <==> users.ByGoogleId(s).Some?
  {
  }

  /** The decision of a rule: the wrapped view runs for `Granted`. */
  datatype Access = Granted(user: User) | Denied(status: int, error: string)

  /** The steps both decorators share: a missing identity is 401, a failed
      query 401, an unknown user 404. */
  function Authenticate(users: UserTable, identity: Json): (a: Access)
    reads users, users.users
    ensures !PyTruthy(identity) ==> a == Denied(401, "Authentication required")
    ensures a.Granted? <==> PyTruthy(identity) && ResolveIdentity(users, identity).Found?
    ensures a.Granted? ==> a.user == ResolveIdentity(users, identity).user
    ensures PyTruthy(identity) && ResolveIdentity(users, identity).NotFound? ==> a == Denied(404, "User not found")
    ensures PyTruthy(identity) && ResolveIdentity(users, identity).Raised? ==> a == Denied(401, "Authentication failed")
  {
    if !PyTruthy(identity) then Denied(401, "Authentication required")
    else
      match ResolveIdentity(users, identity)
      case Raised => Denied(401, "Authentication failed")
      case NotFound => Denied(404, "User not found")
      case Found(u) => Granted(u)
  }

  /** `admin_required`: an authenticated user passes when
      `is_admin_user()` holds, otherwise 403. */
  function AdminRequired(users: UserTable, identity: Json): (a: Access)
    reads users, users.users
    ensures a.Granted? <==> Authenticate(users, identity).Granted? && Authenticate(users, identity).user.IsAdminUser()
    ensures a.Granted? ==> a.user == Authenticate(users, identity).user && a.user.IsAdminUser()
    ensures Authenticate(users, identity).Denied? ==> a == Authenticate(users, identity)
    ensures Authenticate(users, identity).Granted? && !Authenticate(users, identity).user.IsAdminUser() ==>
              a == Denied(403, "Admin access required")
  {
    match Authenticate(users, identity)
    case Denied(s, e) => Denied(s, e)
    case Granted(u) => if u.IsAdminUser() then Granted(u) else Denied(403, "Admin access required")
  }

  /** `moderator_or_admin_required`: only the role column counts; the
      is_admin flag alone is not enough. */
  function ModeratorOrAdminRequired(users: UserTable, identity: Json): (a: Access)
    reads users, users.users
    ensures a.Granted? <==> Authenticate(users, identity).Granted?
                            && Authenticate(users, identity).user.role in {"admin", "moderator"}
    ensures a.Granted? ==> a.user == Authenticate(users, identity).user
    ensures Authenticate(users, identity).Denied? ==> a == Authenticate(users, identity)
    ensures Authenticate(users, identity).Granted? && Authenticate(users, identity).user.role !in {"admin", "moderator"} ==>
              a == Denied(403, "Moderator or admin access required")
  {
    match Authenticate(users, identity)
    case Denied(s, e) => Denied(s, e)
    case Granted(u) =>
      if u.HasRole("admin") || u.HasRole("moderator") then Granted(u)
      else Denied(403, "Moderator or admin access required")
  }

  /** A user with the is_admin flag but the role 'user' passes
      `admin_required` and is refused by `moderator_or_admin_required`. */
  lemma AdminFlagIsNotModerator(users: UserTable, identity: Json)
    requires PyTruthy(identity) && ResolveIdentity(users, identity).Found?
    requires ResolveIdentity(users, identity).user.isAdmin && ResolveIdentity(users, identity).user.role == "user"
    ensures AdminRequired(users, identity).Granted?
    ensures ModeratorOrAdminRequired(users, identity) == Denied(403, "Moderator or admin access required")
  {
  }

  /** `get_current_admin_user`: the user when it is an admin, null when it
      is not, is unknown, or the lookup fails. */
  function CurrentAdminUser(users: UserTable, identity: Json): (u: User?)
    reads users, users.users
    ensures u != null ==> u in users.users && u.IsAdminUser()
  {
    if !PyTruthy(identity) then null
    else
      match ResolveIdentity(users, identity)
      case Found(u) => if u.IsAdminUser() then u else null
      case _ => null
  }

  /** The admin views see as current admin exactly the user that
      `admin_required` let through. */
  lemma CurrentAdminMatchesAdminRequired(users: UserTable, identity: Json)
    ensures CurrentAdminUser(users, identity) != null <==> AdminRequired(users, identity).Granted?
    ensures AdminRequired(users, identity).Granted? ==> CurrentAdminUser(users, identity) == AdminRequired(users, identity).user
  {
  }
}
