/** backend/app/models/user.py: the user record of the main backend, its
    role predicates and role changes, the password check and the
    dictionary the API returns; `UserTable` is the `users` table with its
    unique columns. Timestamps are whole seconds. */
module AppUserModel {
  import opened Common

  const DefaultAvatar := "https://i.pravatar.cc/150?img=3"
  const DefaultLevel := "Początkujący"

  /** Stands for werkzeug's generate_password_hash. Salting and the hash
      algorithm are not modelled: what the code relies on is that the text
      is non-empty and that checking it against a password succeeds exactly
      for the password it was made from. */
  const HashPrefix := "pbkdf2:sha256$"

  function Digest(password: string): (h: string)
    ensures |h| >= |HashPrefix| > 0 && h[..|HashPrefix|] == HashPrefix
  {
    HashPrefix + password
  }

  /** check_password_hash(hash, password). */
  predicate HashMatches(hash: string, password: string) {
    hash == Digest(password)
  }

  /** A stored hash accepts exactly the password it was made from. */
  lemma DigestDeterminesPassword(p: string, q: string)
    ensures HashMatches(Digest(p), q) <==> p == q
  {
    if Digest(p) == Digest(q) {
      assert p == Digest(p)[|HashPrefix|..];
      assert q == Digest(q)[|HashPrefix|..];
    }
  }

  class User {
    var id: int
    var username: string
    var email: string
    /** "" when no hash is stored (None or empty). */
    var passwordHash: string
    /** "" when no avatar is stored (None or empty). */
    var avatarUrl: string
    var isAdmin: bool
    var role: string
    var createdAt: Option<int>
    var googleId: Option<string>
    var hasPremiumAccess: bool
    var premiumSince: Option<int>

    /** A new row with the column defaults: role 'user', not an admin, no
        password, no avatar, no premium access. */
    constructor (id: int, username: string, email: string, now: int)
      ensures this.id == id && this.username == username && this.email == email
      ensures passwordHash == "" && avatarUrl == "" && !isAdmin && role == "user"
      ensures createdAt == Some(now) && googleId == None
      ensures !hasPremiumAccess && premiumSince == None
    {
      this.id := id;
      this.username := username;
      this.email := email;
      passwordHash := "";
      avatarUrl := "";
      isAdmin := false;
      role := "user";
      createdAt := Some(now);
      googleId := None;
      hasPremiumAccess := false;
      premiumSince := None;
    }

    /** `set_password`: only the hash changes. */
    method SetPassword(password: string)
      modifies this
      ensures passwordHash == Digest(password)
      ensures CheckPassword(password)
      ensures id == old(id) && username == old(username) && email == old(email)
      ensures avatarUrl == old(avatarUrl) && isAdmin == old(isAdmin) && role == old(role)
      ensures createdAt == old(createdAt) && googleId == old(googleId)
      ensures hasPremiumAccess == old(hasPremiumAccess) && premiumSince == old(premiumSince)
    {
      passwordHash := Digest(password);
    }

    /** `check_password`: false whenever no hash is stored; otherwise true
        exactly for the password the hash was made from. */
    function CheckPassword(password: string): (ok: bool)
      reads this
      ensures passwordHash == "" ==> !ok
      ensures ok <==> passwordHash == Digest(password)
    {
      passwordHash != "" && HashMatches(passwordHash, password)
    }

    function HasRole(r: string): (b: bool)
      reads this
      ensures b <==> role == r
    {
      role == r
    }

    /** `is_admin_user`: the 'admin' role or the is_admin flag suffices. */
    function IsAdminUser(): (b: bool)
      reads this
      ensures b <==> HasRole("admin") || isAdmin
    {
      role == "admin" || isAdmin
    }

    /** `promote_to_admin`: role and flag both say admin; nothing else changes. */
    method PromoteToAdmin()
      modifies this
      ensures role == "admin" && isAdmin
      ensures IsAdminUser() && HasRole("admin")
      ensures id == old(id) && username == old(username) && email == old(email)
      ensures passwordHash == old(passwordHash) && avatarUrl == old(avatarUrl)
      ensures createdAt == old(createdAt) && googleId == old(googleId)
      ensures hasPremiumAccess == old(hasPremiumAccess) && premiumSince == old(premiumSince)
    {
      role := "admin";
      isAdmin := true;
    }

    /** `demote_to_user`: role 'user' and flag false, so the user is no
        longer an admin by either test; nothing else changes. */
    method DemoteToUser()
      modifies this
      ensures role == "user" && !isAdmin
      ensures !IsAdminUser() && HasRole("user")
      ensures id == old(id) && username == old(username) && email == old(email)
      ensures passwordHash == old(passwordHash) && avatarUrl == old(avatarUrl)
      ensures createdAt == old(createdAt) && googleId == old(googleId)
      ensures hasPremiumAccess == old(hasPremiumAccess) && premiumSince == old(premiumSince)
    {
      role := "user";
      isAdmin := false;
    }

    /** `to_dict`. Timestamps appear as integer seconds instead of ISO text. */
    function ToDict(): map<string, Json>
      reads this
    {
      map["id" := JInt(id),
          "username" := JStr(username),
          "fullName" := JStr(username),
          "email" := JStr(email),
          "avatar" := JStr(if avatarUrl != "" then avatarUrl else DefaultAvatar),
          "level" := JStr(DefaultLevel),
          "is_admin" := JBool(IsAdminUser()),
          "role" := JStr(role),
          "created_at" := (match createdAt case Some(t) => JInt(t) case None => JNull),
          "has_premium_access" := JBool(hasPremiumAccess),
          "premium_since" := (match premiumSince case Some(t) => JInt(t) case None => JNull),
          "stats" := JObj(map["quizzes" := JInt(0), "bestTime" := JStr("0min"), "correctAnswers" := JInt(0)])]
    }

    /** The keys `to_dict` always gives. */
    lemma ToDictKeys()
      ensures ToDict().Keys == {"id", "username", "fullName", "email", "avatar", "level", "is_admin",
                                "role", "created_at", "has_premium_access", "premium_since", "stats"}
    {
    }

    /** The avatar fallback, the username repeated as the full name, the
        admin test and the constant placeholders. */
    lemma ToDictValues()
      ensures "fullName" in ToDict() && "username" in ToDict() && "avatar" in ToDict()
      ensures ToDict()["fullName"] == ToDict()["username"] == JStr(username)
      ensures ToDict()["avatar"] == JStr(if avatarUrl == "" then DefaultAvatar else avatarUrl)
      ensures ToDict()["avatar"] != JStr("")
      ensures "is_admin" in ToDict() && ToDict()["is_admin"] == JBool(IsAdminUser())
      ensures "level" in ToDict() && ToDict()["level"] == JStr(DefaultLevel)
      ensures "stats" in ToDict()
      ensures ToDict()["stats"] == JObj(map["quizzes" := JInt(0), "bestTime" := JStr("0min"), "correctAnswers" := JInt(0)])
    {
    }
  }

  // ---------------------------------------------------------------------
  // The users table

  /** The first user in the sequence with the given id. */
  function FirstWithId(us: seq<User>, id: int): (r: Option<User>)
    reads us
    ensures r.Some? ==> r.value in us && r.value.id == id
    ensures r.None? <==> forall u :: u in us ==> u.id != id
  {
    if us == [] then None
    else if us[0].id == id then Some(us[0])
    else FirstWithId(us[1..], id)
  }

  function FirstWithEmail(us: seq<User>, email: string): (r: Option<User>)
    reads us
    ensures r.Some? ==> r.value in us && r.value.email == email
    ensures r.None? <==> forall u :: u in us ==> u.email != email
  {
    if us == [] then None
    else if us[0].email == email then Some(us[0])
    else FirstWithEmail(us[1..], email)
  }

  function FirstWithUsername(us: seq<User>, username: string): (r: Option<User>)
    reads us
    ensures r.Some? ==> r.value in us && r.value.username == username
    ensures r.None? <==> forall u :: u in us ==> u.username != username
  {
    if us == [] then None
    else if us[0].username == username then Some(us[0])
    else FirstWithUsername(us[1..], username)
  }

  function FirstWithGoogleId(us: seq<User>, gid: string): (r: Option<User>)
    reads us
    ensures r.Some? ==> r.value in us && r.value.googleId == Some(gid)
    ensures r.None? <==> forall u :: u in us ==> u.googleId != Some(gid)
  {
    if us == [] then None
    else if us[0].googleId == Some(gid) then Some(us[0])
    else FirstWithGoogleId(us[1..], gid)
  }

  /** The largest id in the sequence, 0 when it is empty. */
  function MaxId(us: seq<User>): (m: int)
    reads us
    ensures m >= 0
    ensures forall u :: u in us ==> u.id <= m
  {
    if us == [] then 0
    else
      var rest := MaxId(us[1..]);
      if us[0].id > rest then us[0].id else rest
  }

  /** Two rows that may share a table: different objects with different
      ids, emails and google ids. */
  ghost predicate RowsDiffer(a: User, b: User)
    reads a, b
  {
    a != b && a.id != b.id && a.email != b.email && (a.googleId.Some? ==> a.googleId != b.googleId)
  }

  class UserTable {
    var users: seq<User>

    /** The table's own constraints: each row is its own object, and ids,
        emails and google ids are unique. */
    ghost predicate Valid()
      reads this, users
    {
      forall i, j {:trigger RowsDiffer(users[i], users[j])} :: 0 <= i < j < |users| ==> RowsDiffer(users[i], users[j])
    }

    constructor ()
      ensures users == []
    {
      users := [];
    }

    /** `User.query.get(id)`. */
    function Get(id: int): (r: Option<User>)
      reads this, users
      ensures r.Some? ==> r.value in users && r.value.id == id
      ensures r.None? <==> forall u :: u in users ==> u.id != id
    {
      FirstWithId(users, id)
    }

    /** `User.query.filter_by(email=...).first()`. */
    function ByEmail(email: string): (r: Option<User>)
      reads this, users
      ensures r.Some? ==> r.value in users && r.value.email == email
      ensures r.None? <==> forall u :: u in users ==> u.email != email
    {
      FirstWithEmail(users, email)
    }

    function ByUsername(username: string): (r: Option<User>)
      reads this, users
      ensures r.Some? ==> r.value in users && r.value.username == username
      ensures r.None? <==> forall u :: u in users ==> u.username != username
    {
      FirstWithUsername(users, username)
    }

    function ByGoogleId(gid: string): (r: Option<User>)
      reads this, users
      ensures r.Some? ==> r.value in users && r.value.googleId == Some(gid)
      ensures r.None? <==> forall u :: u in users ==> u.googleId != Some(gid)
    {
      FirstWithGoogleId(users, gid)
    }

    /** The id the database assigns to the next row. */
    function NextId(): (id: int)
      reads this, users
      ensures id >= 1 && forall u :: u in users ==> u.id < id
    {
      MaxId(users) + 1
    }

    /** Grants a user of the table premium access, stamping premium_since
        unless it is already set; no other column changes. */
    method GrantPremium(u: User, now: int)
      requires Valid() && u in users
      modifies u
      ensures Valid()
      ensures u.hasPremiumAccess
      ensures u.premiumSince == if old(u.premiumSince).None? then Some(now) else old(u.premiumSince)
      ensures u.id == old(u.id) && u.username == old(u.username) && u.email == old(u.email)
      ensures u.passwordHash == old(u.passwordHash) && u.avatarUrl == old(u.avatarUrl)
      ensures u.isAdmin == old(u.isAdmin) && u.role == old(u.role) && u.createdAt == old(u.createdAt)
      ensures u.googleId == old(u.googleId)
    {
      u.hasPremiumAccess := true;
      if u.premiumSince.None? {
        u.premiumSince := Some(now);
      }
      KeysUnchanged(u);
    }

    /** Sets a user's username; no other column changes. */
    method SetUsername(u: User, username: string)
      requires Valid() && u in users
      modifies u
      ensures Valid() && u.username == username
      ensures u.id == old(u.id) && u.email == old(u.email) && u.passwordHash == old(u.passwordHash)
      ensures u.avatarUrl == old(u.avatarUrl) && u.isAdmin == old(u.isAdmin) && u.role == old(u.role)
      ensures u.createdAt == old(u.createdAt) && u.googleId == old(u.googleId)
      ensures u.hasPremiumAccess == old(u.hasPremiumAccess) && u.premiumSince == old(u.premiumSince)
    {
      u.username := username;
      KeysUnchanged(u);
    }

    /** Sets a user's password hash; no other column changes. */
    method SetPasswordOf(u: User, password: string)
      requires Valid() && u in users
      modifies u
      ensures Valid() && u.passwordHash == Digest(password) && u.CheckPassword(password)
      ensures u.id == old(u.id) && u.email == old(u.email) && u.username == old(u.username)
      ensures u.avatarUrl == old(u.avatarUrl) && u.isAdmin == old(u.isAdmin) && u.role == old(u.role)
      ensures u.createdAt == old(u.createdAt) && u.googleId == old(u.googleId)
      ensures u.hasPremiumAccess == old(u.hasPremiumAccess) && u.premiumSince == old(u.premiumSince)
    {
      u.SetPassword(password);
      KeysUnchanged(u);
    }

    /** Sets a user's email to one no user has; no other column changes. */
    method SetEmail(u: User, email: string)
      requires Valid() && u in users && ByEmail(email).None?
      modifies u
      ensures Valid() && u.email == email
      ensures u.id == old(u.id) && u.username == old(u.username) && u.passwordHash == old(u.passwordHash)
      ensures u.avatarUrl == old(u.avatarUrl) && u.isAdmin == old(u.isAdmin) && u.role == old(u.role)
      ensures u.createdAt == old(u.createdAt) && u.googleId == old(u.googleId)
      ensures u.hasPremiumAccess == old(u.hasPremiumAccess) && u.premiumSince == old(u.premiumSince)
    {
      u.email := email;
      forall i, j | 0 <= i < j < |users|
        ensures RowsDiffer(users[i], users[j])
      {
        var a, b := users[i], users[j];
        assert a in users && b in users;
        assert old(RowsDiffer(a, b));
        assert old(a.email != email && b.email != email);
      }
    }

    /** Withdraws a user's premium access; premium_since stays. */
    method RevokePremium(u: User)
      requires Valid() && u in users
      modifies u
      ensures Valid()
      ensures !u.hasPremiumAccess && u.premiumSince == old(u.premiumSince)
      ensures u.id == old(u.id) && u.username == old(u.username) && u.email == old(u.email)
      ensures u.passwordHash == old(u.passwordHash) && u.avatarUrl == old(u.avatarUrl)
      ensures u.isAdmin == old(u.isAdmin) && u.role == old(u.role) && u.createdAt == old(u.createdAt)
      ensures u.googleId == old(u.googleId)
    {
      u.hasPremiumAccess := false;
      KeysUnchanged(u);
    }

    /** `promote_to_admin` on a user of the table. */
    method Promote(u: User)
      requires Valid() && u in users
      modifies u
      ensures Valid() && u.role == "admin" && u.isAdmin && u.IsAdminUser()
      ensures u.id == old(u.id) && u.username == old(u.username) && u.email == old(u.email)
      ensures u.passwordHash == old(u.passwordHash) && u.avatarUrl == old(u.avatarUrl)
      ensures u.createdAt == old(u.createdAt) && u.googleId == old(u.googleId)
      ensures u.hasPremiumAccess == old(u.hasPremiumAccess) && u.premiumSince == old(u.premiumSince)
    {
      u.PromoteToAdmin();
      KeysUnchanged(u);
    }

    /** `demote_to_user` on a user of the table. */
    method Demote(u: User)
      requires Valid() && u in users
      modifies u
      ensures Valid() && u.role == "user" && !u.isAdmin && !u.IsAdminUser()
      ensures u.id == old(u.id) && u.username == old(u.username) && u.email == old(u.email)
      ensures u.passwordHash == old(u.passwordHash) && u.avatarUrl == old(u.avatarUrl)
      ensures u.createdAt == old(u.createdAt) && u.googleId == old(u.googleId)
      ensures u.hasPremiumAccess == old(u.hasPremiumAccess) && u.premiumSince == old(u.premiumSince)
    {
      u.DemoteToUser();
      KeysUnchanged(u);
    }

    /** Premium access from `now`: premium_since is overwritten. */
    method StartPremium(u: User, now: int)
      requires Valid() && u in users
      modifies u
      ensures Valid() && u.hasPremiumAccess && u.premiumSince == Some(now)
      ensures u.id == old(u.id) && u.username == old(u.username) && u.email == old(u.email)
      ensures u.passwordHash == old(u.passwordHash) && u.avatarUrl == old(u.avatarUrl)
      ensures u.isAdmin == old(u.isAdmin) && u.role == old(u.role) && u.createdAt == old(u.createdAt)
      ensures u.googleId == old(u.googleId)
    {
      u.hasPremiumAccess := true;
      u.premiumSince := Some(now);
      KeysUnchanged(u);
    }

    /** Sets the role column alone; the is_admin flag stays. */
    method SetRole(u: User, role: string)
      requires Valid() && u in users
      modifies u
      ensures Valid() && u.role == role
      ensures u.id == old(u.id) && u.username == old(u.username) && u.email == old(u.email)
      ensures u.passwordHash == old(u.passwordHash) && u.avatarUrl == old(u.avatarUrl)
      ensures u.isAdmin == old(u.isAdmin) && u.createdAt == old(u.createdAt) && u.googleId == old(u.googleId)
      ensures u.hasPremiumAccess == old(u.hasPremiumAccess) && u.premiumSince == old(u.premiumSince)
    {
      u.role := role;
      KeysUnchanged(u);
    }

    /** Sets a user's avatar_url; no other column changes. */
    method SetAvatar(u: User, url: string)
      requires Valid() && u in users
      modifies u
      ensures Valid() && u.avatarUrl == url
      ensures u.id == old(u.id) && u.username == old(u.username) && u.email == old(u.email)
      ensures u.passwordHash == old(u.passwordHash) && u.isAdmin == old(u.isAdmin) && u.role == old(u.role)
      ensures u.createdAt == old(u.createdAt) && u.googleId == old(u.googleId)
      ensures u.hasPremiumAccess == old(u.hasPremiumAccess) && u.premiumSince == old(u.premiumSince)
    {
      u.avatarUrl := url;
      KeysUnchanged(u);
    }

    /** Sets the has_premium_access column alone; premium_since stays. */
    method SetPremiumFlag(u: User, premium: bool)
      requires Valid() && u in users
      modifies u
      ensures Valid() && u.hasPremiumAccess == premium
      ensures u.id == old(u.id) && u.username == old(u.username) && u.email == old(u.email)
      ensures u.passwordHash == old(u.passwordHash) && u.avatarUrl == old(u.avatarUrl)
      ensures u.isAdmin == old(u.isAdmin) && u.role == old(u.role) && u.createdAt == old(u.createdAt)
      ensures u.googleId == old(u.googleId) && u.premiumSince == old(u.premiumSince)
    {
      u.hasPremiumAccess := premium;
      KeysUnchanged(u);
    }

    /** The unique columns stay unique when only `u`'s other columns moved. */
    twostate lemma KeysUnchanged(u: User)
      requires old(Valid()) && users == old(users) && u in users
      requires forall v :: v in users && v != u ==> unchanged(v)
      requires u.id == old(u.id) && u.email == old(u.email) && u.googleId == old(u.googleId)
      ensures Valid()
    {
      forall i, j | 0 <= i < j < |users|
        ensures RowsDiffer(users[i], users[j])
      {
        var a, b := users[i], users[j];
        assert a in users && b in users;
        assert a.id == old(a.id) && a.email == old(a.email) && a.googleId == old(a.googleId);
        assert b.id == old(b.id) && b.email == old(b.email) && b.googleId == old(b.googleId);
        assert old(RowsDiffer(a, b));
      }
    }

    /** Adds a new row with the next id and the given username and email,
        the column defaults and no google id. */
    method Insert(username: string, email: string, now: int) returns (u: User)
      requires Valid()
      requires ByEmail(email).None?
      modifies this
      ensures Valid() && fresh(u)
      ensures users == old(users) + [u]
      ensures u.id == old(NextId()) && u.username == username && u.email == email
      ensures u.passwordHash == "" && u.role == "user" && !u.isAdmin && u.googleId == None
      ensures !u.hasPremiumAccess && u.premiumSince == None && u.avatarUrl == ""
    {
      var id := NextId();
      u := new User(id, username, email, now);
      users := users + [u];
    }
  }

  /** Two users of a valid table with the same email are the same user. */
  lemma EmailsUnique(users: UserTable, u: User, v: User)
    requires users.Valid() && u in users.users && v in users.users && u.email == v.email
    ensures u == v
  {
    var i :| 0 <= i < |users.users| && users.users[i] == u;
    var j :| 0 <= j < |users.users| && users.users[j] == v;
    if i != j {
      RowsOf(users, i, j);
    }
  }

  /** Two users of a valid table with the same id are the same user. */
  lemma IdsUnique(users: UserTable, u: User, v: User)
    requires users.Valid() && u in users.users && v in users.users && u.id == v.id
    ensures u == v
  {
    var i :| 0 <= i < |users.users| && users.users[i] == u;
    var j :| 0 <= j < |users.users| && users.users[j] == v;
    if i != j {
      RowsOf(users, i, j);
    }
  }

  /** Two users of a valid table with the same google id are the same user. */
  lemma GoogleIdsUnique(users: UserTable, u: User, v: User)
    requires users.Valid() && u in users.users && v in users.users && u.googleId.Some? && u.googleId == v.googleId
    ensures u == v
  {
    var i :| 0 <= i < |users.users| && users.users[i] == u;
    var j :| 0 <= j < |users.users| && users.users[j] == v;
    if i != j {
      RowsOf(users, i, j);
    }
  }

  /** Any two rows of a valid table, in either order, differ. */
  lemma RowsOf(users: UserTable, i: int, j: int)
    requires users.Valid() && 0 <= i < |users.users| && 0 <= j < |users.users| && i != j
    ensures RowsDiffer(users.users[i], users.users[j])
  {
    if j < i {
      assert RowsDiffer(users.users[j], users.users[i]);
    }
  }
}
