/** backend/controllers/user_controller.py: the older `UserController`
    over the `users` table of backend/models/user.py: registration, login
    and the bulk upsert `update_users`.

    That User class has no `set_password` or `check_password`, so every
    call the controller makes to either raises AttributeError. The model
    is parameterised by `PasswordMethods`: `Missing` is the code as it is
    shipped, `Provided` gives the class the werkzeug methods of the other
    user models, which is what the controller evidently expects. */
module LegacyUserController {
  import opened Common
  import AppUserModel

  /** The columns of a `users` row the controller touches. Names, emails
      and the admin flag hold what the request gave. */
  datatype LegacyUser = LegacyUser(id: int, username: Json, email: Json, passwordHash: Option<string>, isAdmin: Json)

  /** Whether the User class defines `set_password`/`check_password`. */
  datatype PasswordMethods = Missing | Provided

  const Level := "Początkujący"

  /** `User.to_dict()` of backend/models/user.py. */
  function ToDict(u: LegacyUser): (d: map<string, Json>)
    ensures d.Keys == {"id", "fullName", "email", "isAdmin", "level", "stats"}
    ensures d["id"] == JInt(u.id) && d["fullName"] == u.username && d["email"] == u.email && d["isAdmin"] == u.isAdmin
  {
    map["id" := JInt(u.id), "fullName" := u.username, "email" := u.email, "isAdmin" := u.isAdmin,
        "level" := JStr(Level),
        "stats" := JObj(map["quizzes" := JInt(0), "bestTime" := JStr("0min"), "correctAnswers" := JInt(0)])]
  }

  // ---------------------------------------------------------------------
  // The table and its constraints

  /** A value a String column can bind: not NULL (the columns are NOT NULL)
      and not a list or dict. */
  predicate TextColumn(j: Json) {
    j.JStr? || j.JInt? || j.JBool?
  }

  /** A value the Boolean column accepts: None, a bool, 0 or 1. */
  predicate BoolColumn(j: Json) {
    j.JNull? || j.JBool? || (j.JInt? && 0 <= j.n <= 1)
  }

  predicate Storable(u: LegacyUser) {
    TextColumn(u.username) && TextColumn(u.email) && BoolColumn(u.isAdmin)
  }

  /** Whether two values are the same text in a String column: SQLite
      keeps an int or bool as its text and compares a bound int or bool
      with the column as text, so 5 and "5" are the same; NULL is the
      same as nothing. */
  predicate SameText(a: Json, b: Json) {
    SqliteText(a).Some? && SqliteText(a) == SqliteText(b)
  }

  /** Two rows that may share the table: primary key, username and email
      are unique, as the text the columns store. */
  predicate Compatible(a: LegacyUser, b: LegacyUser) {
    a.id != b.id && !SameText(a.username, b.username) && !SameText(a.email, b.email)
  }

  /** The rows a commit can leave: every row storable, keys unique. */
  predicate Committable(rows: seq<LegacyUser>) {
    && (forall i :: 0 <= i < |rows| ==> Storable(rows[i]))
    && (forall i, j :: 0 <= i < j < |rows| ==> Compatible(rows[i], rows[j]))
  }

  predicate IdsDistinct(rows: seq<LegacyUser>) {
    forall i, j :: 0 <= i < j < |rows| ==> rows[i].id != rows[j].id
  }

  function MaxId(rows: seq<LegacyUser>): (m: int)
    ensures m >= 0
    ensures forall i :: 0 <= i < |rows| ==> rows[i].id <= m
  {
    if rows == [] then 0
    else
      var rest := MaxId(rows[1..]);
      assert forall i :: 1 <= i < |rows| ==> rows[i] == rows[1..][i - 1];
      if rows[0].id > rest then rows[0].id else rest
  }

  /** The id SQLite gives the next inserted row. */
  function NextId(rows: seq<LegacyUser>): (id: int)
    ensures id > 0 && forall i :: 0 <= i < |rows| ==> rows[i].id < id
  {
    MaxId(rows) + 1
  }

  // ---------------------------------------------------------------------
  // Lookups

  /** A value SQLAlchemy cannot bind as a query parameter. */
  predicate Unbindable(j: Json) {
    j.JArr? || j.JObj?
  }

  /** The integer key `User.query.get(j)` looks for: an int, a bool as
      1 or 0, or text the INTEGER affinity of the id column reads as an
      integer; other text matches no id. */
  function IdKey(j: Json): Option<int> {
    match j
    case JInt(n) => Some(n)
    case JBool(b) => Some(if b then 1 else 0)
    case JStr(s) => SignedDecimal(s)
    case _ => None
  }

  /** The position of the row with id `k`. */
  function IndexOfId(rows: seq<LegacyUser>, k: int): (r: Option<nat>)
    ensures r.Some? ==> r.value < |rows| && rows[r.value].id == k
    ensures r.None? ==> forall i :: 0 <= i < |rows| ==> rows[i].id != k
  {
    if rows == [] then None
    else if rows[0].id == k then Some(0)
    else match IndexOfId(rows[1..], k)
      case Some(i) => Some(i + 1)
      case None => assert forall i :: 1 <= i < |rows| ==> rows[i] == rows[1..][i - 1]; None
  }

  /** `User.query.filter_by(email=e).first()`: the first row whose email
      is the same text as `e`. */
  function IndexOfEmail(rows: seq<LegacyUser>, e: Json): (r: Option<nat>)
    ensures r.Some? ==> r.value < |rows| && SameText(rows[r.value].email, e)
    ensures r.Some? ==> forall i :: 0 <= i < r.value ==> !SameText(rows[i].email, e)
    ensures r.None? ==> forall i :: 0 <= i < |rows| ==> !SameText(rows[i].email, e)
  {
    if rows == [] then None
    else if SameText(rows[0].email, e) then Some(0)
    else match IndexOfEmail(rows[1..], e)
      case Some(i) => assert forall k :: 1 <= k <= i ==> rows[k] == rows[1..][k - 1]; Some(i + 1)
      case None => assert forall i :: 1 <= i < |rows| ==> rows[i] == rows[1..][i - 1]; None
  }

  /** An email stored from the int n is found by the text of n, and that
      text cannot join the table beside it. */
  lemma NumberEmailIsText(rows: seq<LegacyUser>, n: int)
    requires rows != [] && rows[0].email == JInt(n)
    ensures IndexOfEmail(rows, JStr(IntToString(n))) == Some(0)
    ensures forall u: LegacyUser :: u.email == JStr(IntToString(n)) ==> !Compatible(rows[0], u)
  {
    assert SameText(rows[0].email, JStr(IntToString(n)));
  }

  // ---------------------------------------------------------------------
  // register_user

  function FieldRequired(f: string): string {
    "Field " + f + " is required"
  }

  /** A required field given as a string with something left after
      stripping. */
  predicate Filled(data: map<string, Json>, f: string) {
    f in data && data[f].JStr? && Strip(data[f].s) != ""
  }

  /** One turn of the required-field loop: a missing or blank field is
      reported; a present field that is not a string has no `.strip()`,
      an exception that ends in "Registration failed". */
  function FieldCheck(data: map<string, Json>, f: string): (e: Option<string>)
    ensures e.None? <==> Filled(data, f)
    ensures f !in data ==> e == Some(FieldRequired(f))
    ensures f in data && data[f].JStr? && e.Some? ==> e == Some(FieldRequired(f))
  {
    if f !in data then Some(FieldRequired(f))
    else if !data[f].JStr? then Some(Failure("Registration failed"))
    else if Strip(data[f].s) == "" then Some(FieldRequired(f))
    else None
  }

  /** The required-field loop over fullName, email and password: the
      first refusal wins. */
  function FieldRefusal(data: map<string, Json>): (e: Option<string>)
    ensures e.None? <==> Filled(data, "fullName") && Filled(data, "email") && Filled(data, "password")
  {
    var name := FieldCheck(data, "fullName");
    if name.Some? then name
    else
      var email := FieldCheck(data, "email");
      if email.Some? then email else FieldCheck(data, "password")
  }

  /** The refusal register_user returns before it creates anything, in its
      order: the required fields, then an email already in the table. */
  function RegisterRefusal(rows: seq<LegacyUser>, data: map<string, Json>): (e: Option<string>) {
    var fields := FieldRefusal(data);
    if fields.Some? then fields
    else if IndexOfEmail(rows, data["email"]).Some? then Some("User with this email already exists")
    else None
  }

  /** A new row that can join a committable table: storable, with an id,
      a username and an email no row has. */
  predicate Fits(rows: seq<LegacyUser>, u: LegacyUser) {
    Storable(u) && forall i :: 0 <= i < |rows| ==> Compatible(rows[i], u)
  }

  lemma AppendFits(rows: seq<LegacyUser>, u: LegacyUser)
    requires Committable(rows) && Fits(rows, u)
    ensures Committable(rows + [u])
  {
    var r := rows + [u];
    forall i, j | 0 <= i < j < |r|
      ensures Compatible(r[i], r[j])
    {
      if j == |rows| {
        assert r[i] == rows[i] && r[j] == u;
      } else {
        assert r[i] == rows[i] && r[j] == rows[j];
      }
    }
    forall i | 0 <= i < |r|
      ensures Storable(r[i])
    {
      if i < |rows| {
        assert r[i] == rows[i];
      }
    }
  }

  /** The row register_user builds once the checks pass. */
  function Registered(rows: seq<LegacyUser>, data: map<string, Json>): LegacyUser
    requires Filled(data, "fullName") && Filled(data, "email") && Filled(data, "password")
  {
    LegacyUser(NextId(rows), data["fullName"], data["email"], Some(AppUserModel.Digest(data["password"].s)), JBool(false))
  }

  /** register_user with the User class the controller expects: the
      answer and the table after it. */
  function RegisterOutcome(rows: seq<LegacyUser>, data: map<string, Json>): (Result<map<string, Json>>, seq<LegacyUser>) {
    var refusal := RegisterRefusal(rows, data);
    if refusal.Some? then (Err(refusal.value), rows)
    else
      var u := Registered(rows, data);
      if Fits(rows, u) then (Ok(ToDict(u)), rows + [u])
      else (Err(Failure("Registration failed")), rows)
  }

  /** register_user as shipped: after the checks, `set_password` raises
      and the session is rolled back. */
  function RegisterAsWritten(rows: seq<LegacyUser>, data: map<string, Json>): (r: Result<map<string, Json>>) {
    var refusal := RegisterRefusal(rows, data);
    if refusal.Some? then Err(refusal.value) else Err(Failure("Registration failed"))
  }

  /** The field check reports the first of fullName, email, password that
      is missing or blank, once the fields before it are filled. */
  lemma FirstMissingReported(rows: seq<LegacyUser>, data: map<string, Json>, f: string)
    requires f == "fullName" || (f == "email" && Filled(data, "fullName"))
          || (f == "password" && Filled(data, "fullName") && Filled(data, "email"))
    requires f !in data || (data[f].JStr? && Strip(data[f].s) == "")
    ensures RegisterOutcome(rows, data) == (Err(FieldRequired(f)), rows)
  {
    assert FieldCheck(data, f) == Some(FieldRequired(f));
  }

  /** With the fields filled, a taken email is refused. */
  lemma TakenEmailRefused(rows: seq<LegacyUser>, data: map<string, Json>, i: nat)
    requires Filled(data, "fullName") && Filled(data, "email") && Filled(data, "password")
    requires i < |rows| && rows[i].email == data["email"]
    ensures RegisterOutcome(rows, data) == (Err("User with this email already exists"), rows)
  {
    assert IndexOfEmail(rows, data["email"]).Some?;
  }

  /** A successful registration appends exactly one row: the given name
      and email, the hash of the given password, not an admin, and an id
      and an email no row had. */
  lemma RegisterCreatesUser(rows: seq<LegacyUser>, data: map<string, Json>)
    requires RegisterOutcome(rows, data).0.Ok?
    ensures Filled(data, "fullName") && Filled(data, "email") && Filled(data, "password")
    ensures var (r, after) := RegisterOutcome(rows, data);
      && |after| == |rows| + 1 && after[..|rows|] == rows
      && after[|rows|].username == data["fullName"] && after[|rows|].email == data["email"]
      && after[|rows|].isAdmin == JBool(false)
      && after[|rows|].passwordHash == Some(AppUserModel.Digest(data["password"].s))
      && (forall i :: 0 <= i < |rows| ==> rows[i].id != after[|rows|].id && rows[i].email != data["email"])
      && r.value == ToDict(after[|rows|])
  {
    assert RegisterRefusal(rows, data).None?;
    var u := Registered(rows, data);
    assert RegisterOutcome(rows, data) == (Ok(ToDict(u)), rows + [u]);
    assert (rows + [u])[..|rows|] == rows;
  }

  /** As shipped, register_user never creates a user. */
  lemma RegisterAlwaysFailsAsWritten(rows: seq<LegacyUser>, data: map<string, Json>)
    ensures RegisterAsWritten(rows, data).Err?
    ensures RegisterRefusal(rows, data).None? ==> RegisterAsWritten(rows, data) == Err(Failure("Registration failed"))
  {
  }

  /** A registration the intended class accepts and the shipped one
      refuses. */
  lemma RegisterCounterexample()
    ensures var data := map["fullName" := JStr("A"), "email" := JStr("a"), "password" := JStr("p")];
      && RegisterOutcome([], data).0.Ok?
      && RegisterAsWritten([], data) == Err(Failure("Registration failed"))
  {
    var data := map["fullName" := JStr("A"), "email" := JStr("a"), "password" := JStr("p")];
    FilledByOne(data, "fullName", 'A');
    FilledByOne(data, "email", 'a');
    FilledByOne(data, "password", 'p');
    var u := Registered([], data);
    assert Fits([], u);
  }

  lemma FilledByOne(data: map<string, Json>, f: string, c: char)
    requires f in data && data[f] == JStr([c]) && !IsPySpace(c)
    ensures Filled(data, f)
  {
    StripNothing([c]);
  }

  // ---------------------------------------------------------------------
  // login_user

  const LoginRequired := "Email and password are required"
  const InvalidLogin := "Invalid email or password"

  /** login_user: both arguments must be truthy; the user is the first row
      with the email; `check_password` decides the rest. With the methods
      missing, a known email makes `check_password` raise. */
  function Login(rows: seq<LegacyUser>, email: Json, password: Json, pm: PasswordMethods): (r: Result<map<string, Json>>)
    ensures r.Ok? ==> pm.Provided? && password.JStr?
  {
    if !PyTruthy(email) || !PyTruthy(password) then Err(LoginRequired)
    else if Unbindable(email) then Err(Failure("Login failed"))
    else match IndexOfEmail(rows, email)
      case None => Err(InvalidLogin)
      case Some(i) =>
        if pm.Missing? then Err(Failure("Login failed"))
        else if rows[i].passwordHash.None? then Err(InvalidLogin)
        else if !password.JStr? then Err(Failure("Login failed"))
        else if AppUserModel.HashMatches(rows[i].passwordHash.value, password.s) then Ok(ToDict(rows[i]))
        else Err(InvalidLogin)
  }

  /** With the methods in place, an unknown email and a wrong password are
      refused with the same message, and the login succeeds exactly for
      the stored hash of the password. */
  lemma LoginSameRefusal(rows: seq<LegacyUser>, email: string, password: string)
    requires email != "" && password != ""
    ensures var r := Login(rows, JStr(email), JStr(password), Provided);
      r.Ok? <==> (var i := IndexOfEmail(rows, JStr(email));
                  i.Some? && rows[i.value].passwordHash.Some?
                  && AppUserModel.HashMatches(rows[i.value].passwordHash.value, password))
    ensures var r := Login(rows, JStr(email), JStr(password), Provided);
      r.Err? ==> r == Err(InvalidLogin)
    ensures var r := Login(rows, JStr(email), JStr(password), Provided);
      r.Ok? ==> r.value == ToDict(rows[IndexOfEmail(rows, JStr(email)).value])
  {
  }

  /** The row of the login examples below. */
  function OneUser(): seq<LegacyUser> {
    [LegacyUser(1, JStr("A"), JStr("a"), Some(AppUserModel.Digest("p")), JBool(false))]
  }

  /** With the methods in place, the stored password logs in. */
  lemma LoginExampleAccepted()
    ensures Login(OneUser(), JStr("a"), JStr("p"), Provided) == Ok(ToDict(OneUser()[0]))
  {
    assert IndexOfEmail(OneUser(), JStr("a")) == Some(0);
  }

  /** As shipped, the same login fails with the exception, and a known
      email is refused differently from an unknown one. */
  lemma LoginCounterexample()
    ensures Login(OneUser(), JStr("a"), JStr("p"), Missing) == Err(Failure("Login failed"))
    ensures Login(OneUser(), JStr("a"), JStr("q"), Missing) != Login(OneUser(), JStr("b"), JStr("q"), Missing)
  {
    var rows := OneUser();
    assert IndexOfEmail(rows, JStr("a")) == Some(0);
    assert IndexOfEmail(rows, JStr("b")) == None by {
      assert rows[0].email != JStr("b");
    }
    assert Login(rows, JStr("b"), JStr("q"), Missing) == Err(InvalidLogin);
    FailureIsNotInvalidLogin();
  }

  lemma FailureIsNotInvalidLogin()
    ensures Failure("Login failed") != InvalidLogin
  {
    assert Failure("Login failed")[0] == 'L' && InvalidLogin[0] == 'I';
  }

  // ---------------------------------------------------------------------
  // update_users

  /** What one entry of update_users does. */
  datatype Step = Raised | Updated(rows: seq<LegacyUser>) | Created(rows: seq<LegacyUser>) | Skipped

  /** The password hash after the entry: kept without a 'password' key;
      otherwise `set_password`, which raises when it is missing and when
      the password is not a string. None is the exception. */
  function NewHash(d: map<string, Json>, current: Option<string>, pm: PasswordMethods): (h: Option<Option<string>>)
    ensures "password" !in d ==> h == Some(current)
    ensures "password" in d && h.Some? ==> pm.Provided? && d["password"].JStr? && h.value == Some(AppUserModel.Digest(d["password"].s))
  {
    if "password" !in d then Some(current)
    else if pm.Missing? || !d["password"].JStr? then None
    else Some(Some(AppUserModel.Digest(d["password"].s)))
  }

  /** How an entry found its row: by its truthy id, or else by its truthy
      email. */
  datatype Target = ById(i: nat) | ByEmail(i: nat) | NoTarget | Unqueryable

  function FindTarget(rows: seq<LegacyUser>, d: map<string, Json>): (t: Target)
    ensures t.ById? || t.ByEmail? ==> t.i < |rows|
    ensures t.ById? ==> "id" in d && PyTruthy(d["id"]) && IdKey(d["id"]).Some? && rows[t.i].id == IdKey(d["id"]).value
    ensures t.ByEmail? ==> "email" in d && PyTruthy(d["email"]) && IndexOfEmail(rows, d["email"]) == Some(t.i)
  {
    var uid := GetOr(d, "id", JNull);
    if PyTruthy(uid) && Unbindable(uid) then Unqueryable
    else
      var byId := if PyTruthy(uid) && IdKey(uid).Some? then IndexOfId(rows, IdKey(uid).value) else None;
      if byId.Some? then ById(byId.value)
      else
        var email := GetOr(d, "email", JNull);
        if PyTruthy(email) && Unbindable(email) then Unqueryable
        else if PyTruthy(email) && IndexOfEmail(rows, email).Some? then ByEmail(IndexOfEmail(rows, email).value)
        else NoTarget
  }

  /** An id sent as decimal text, "3", finds the row with id 3. */
  lemma TextIdFindsRow(rows: seq<LegacyUser>, n: int)
    requires IndexOfId(rows, n).Some?
    ensures FindTarget(rows, map["id" := JStr(IntToString(n))]) == ById(IndexOfId(rows, n).value)
  {
    SignedDecimalOfString(n);
    assert IntToString(n) != [];
  }

  /** The row an entry updates: the name, the email (only when found by
      id) and the admin flag it gives, the password hash `set_password`
      leaves; the rest of the row stays. */
  function Revised(u: LegacyUser, d: map<string, Json>, byId: bool, hash: Option<string>): LegacyUser {
    u.(username := GetOr(d, "fullName", u.username),
       email := if byId then GetOr(d, "email", u.email) else u.email,
       passwordHash := hash,
       isAdmin := GetOr(d, "isAdmin", u.isAdmin))
  }

  /** One iteration of the loop of update_users. */
  function Apply(rows: seq<LegacyUser>, entry: Json, pm: PasswordMethods): Step {
    if !entry.JObj? then Raised
    else
      var d := entry.fields;
      match FindTarget(rows, d)
      case Unqueryable => Raised
      case ById(i) =>
        (match NewHash(d, rows[i].passwordHash, pm)
         case None => Raised
         case Some(h) => Updated(rows[i := Revised(rows[i], d, true, h)]))
      case ByEmail(i) =>
        (match NewHash(d, rows[i].passwordHash, pm)
         case None => Raised
         case Some(h) => Updated(rows[i := Revised(rows[i], d, false, h)]))
      case NoTarget =>
        if "fullName" in d && "email" in d then
          match NewHash(d, None, pm)
          case None => Raised
          case Some(h) => Created(rows + [LegacyUser(NextId(rows), d["fullName"], d["email"], h, GetOr(d, "isAdmin", JBool(false)))])
        else Skipped
  }

  /** Where the loop stands after its entries: an exception, or the rows
      and the two counters. */
  datatype Progress = Failed | Done(rows: seq<LegacyUser>, updated: nat, created: nat)

  function Run(rows: seq<LegacyUser>, entries: seq<Json>, pm: PasswordMethods, updated: nat, created: nat): Progress
    decreases |entries|
  {
    if entries == [] then Done(rows, updated, created)
    else match Apply(rows, entries[0], pm)
      case Raised => Failed
      case Updated(r) => Run(r, entries[1..], pm, updated + 1, created)
      case Created(r) => Run(r, entries[1..], pm, updated, created + 1)
      case Skipped => Run(rows, entries[1..], pm, updated, created)
  }

  function Counts(updated: nat, created: nat): map<string, Json> {
    map["success" := JBool(true), "updatedCount" := JInt(updated), "newCount" := JInt(created)]
  }

  /** update_users: the answer and the table after it. The commit happens
      only when something was counted; a failed commit, like any
      exception, rolls everything back. */
  function UpdateUsersOutcome(rows: seq<LegacyUser>, entries: seq<Json>, pm: PasswordMethods): (Result<map<string, Json>>, seq<LegacyUser>) {
    match Run(rows, entries, pm, 0, 0)
    case Failed => (Err(Failure("Failed to update users")), rows)
    case Done(r, u, n) =>
      if u > 0 || n > 0 then
        if Committable(r) then (Ok(Counts(u, n)), r) else (Err(Failure("Failed to update users")), rows)
      else (Ok(Counts(u, n)), rows)
  }

  /** The dispatch order of one entry: a row found by id or email is
      updated, otherwise an entry with fullName and email creates one,
      otherwise it is skipped. */
  lemma ApplyDispatch(rows: seq<LegacyUser>, entry: Json, pm: PasswordMethods)
    ensures Apply(rows, entry, pm).Updated? ==>
              entry.JObj? && (FindTarget(rows, entry.fields).ById? || FindTarget(rows, entry.fields).ByEmail?)
    ensures Apply(rows, entry, pm).Created? ==>
              entry.JObj? && FindTarget(rows, entry.fields).NoTarget? && "fullName" in entry.fields && "email" in entry.fields
    ensures Apply(rows, entry, pm).Skipped? <==>
              entry.JObj? && FindTarget(rows, entry.fields).NoTarget? && !("fullName" in entry.fields && "email" in entry.fields)
    ensures entry.JObj? && "password" !in entry.fields && !FindTarget(rows, entry.fields).Unqueryable? ==>
              !Apply(rows, entry, pm).Raised?
  {
  }

  /** An update changes the one row it found and in that row only what the
      entry specifies: a field the entry leaves out keeps its value, the
      email changes only for a row found by id, the hash only with a
      'password' key, and the id never. */
  lemma UpdateKeepsUnspecified(rows: seq<LegacyUser>, entry: Json, pm: PasswordMethods)
    requires Apply(rows, entry, pm).Updated?
    ensures entry.JObj?
    ensures var t := FindTarget(rows, entry.fields);
      var d := entry.fields;
      var r := Apply(rows, entry, pm).rows;
      && (t.ById? || t.ByEmail?) && |r| == |rows|
      && (forall j :: 0 <= j < |rows| && j != t.i ==> r[j] == rows[j])
      && r[t.i].id == rows[t.i].id
      && r[t.i].username == GetOr(d, "fullName", rows[t.i].username)
      && r[t.i].isAdmin == GetOr(d, "isAdmin", rows[t.i].isAdmin)
      && r[t.i].email == (if t.ById? then GetOr(d, "email", rows[t.i].email) else rows[t.i].email)
      && ("password" !in d ==> r[t.i].passwordHash == rows[t.i].passwordHash)
      && ("password" in d ==> pm.Provided? && d["password"].JStr?
                              && r[t.i].passwordHash == Some(AppUserModel.Digest(d["password"].s)))
  {
  }

  /** A creation appends one row with a fresh id, the entry's name and
      email, its admin flag or False, and a hash only with a 'password'
      key. */
  lemma CreateAppendsOne(rows: seq<LegacyUser>, entry: Json, pm: PasswordMethods)
    requires Apply(rows, entry, pm).Created?
    ensures entry.JObj? && "fullName" in entry.fields && "email" in entry.fields
    ensures var r := Apply(rows, entry, pm).rows;
      var d := entry.fields;
      && |r| == |rows| + 1 && r[..|rows|] == rows
      && (forall j :: 0 <= j < |rows| ==> rows[j].id < r[|rows|].id)
      && r[|rows|].username == d["fullName"] && r[|rows|].email == d["email"]
      && r[|rows|].isAdmin == GetOr(d, "isAdmin", JBool(false))
      && (r[|rows|].passwordHash.Some? <==> "password" in d)
  {
    var d := entry.fields;
    assert (rows + [LegacyUser(NextId(rows), d["fullName"], d["email"], NewHash(d, None, pm).value, GetOr(d, "isAdmin", JBool(false)))])[..|rows|] == rows;
  }

  /** One entry keeps the existing ids in place and adds at most one
      fresh one. */
  lemma ApplyKeepsIds(rows: seq<LegacyUser>, entry: Json, pm: PasswordMethods)
    requires IdsDistinct(rows)
    ensures var s := Apply(rows, entry, pm);
      s.Updated? || s.Created? ==>
        && IdsDistinct(s.rows) && |rows| <= |s.rows|
        && (forall j :: 0 <= j < |rows| ==> s.rows[j].id == rows[j].id)
        && |s.rows| == |rows| + (if s.Created? then 1 else 0)
  {
    var s := Apply(rows, entry, pm);
    if s.Updated? {
      UpdateKeepsUnspecified(rows, entry, pm);
    } else if s.Created? {
      CreateAppendsOne(rows, entry, pm);
    }
  }

  /** Over the whole loop: the existing rows keep their ids and positions,
      each creation appends one row, and ids stay distinct. */
  lemma {:induction false} RunKeepsIds(rows: seq<LegacyUser>, entries: seq<Json>, pm: PasswordMethods, u0: nat, n0: nat)
    requires IdsDistinct(rows)
    requires Run(rows, entries, pm, u0, n0).Done?
    ensures var p := Run(rows, entries, pm, u0, n0);
      && u0 <= p.updated && n0 <= p.created
      && |p.rows| == |rows| + (p.created - n0)
      && IdsDistinct(p.rows)
      && forall j :: 0 <= j < |rows| ==> p.rows[j].id == rows[j].id
    decreases |entries|
  {
    if entries != [] {
      var s := Apply(rows, entries[0], pm);
      ApplyKeepsIds(rows, entries[0], pm);
      match s
      case Updated(r) => RunKeepsIds(r, entries[1..], pm, u0 + 1, n0);
      case Created(r) => RunKeepsIds(r, entries[1..], pm, u0, n0 + 1);
      case Skipped => RunKeepsIds(rows, entries[1..], pm, u0, n0);
    }
  }

  /** The number of entries that updated or created a row. */
  function Touched(rows: seq<LegacyUser>, entries: seq<Json>, pm: PasswordMethods): nat
    decreases |entries|
  {
    if entries == [] then 0
    else match Apply(rows, entries[0], pm)
      case Raised => 0
      case Updated(r) => 1 + Touched(r, entries[1..], pm)
      case Created(r) => 1 + Touched(r, entries[1..], pm)
      case Skipped => Touched(rows, entries[1..], pm)
  }

  /** The counters add up to the entries that updated or created a row,
      and when neither moved the rows are exactly the ones before. */
  lemma {:induction false} CountsAddUp(rows: seq<LegacyUser>, entries: seq<Json>, pm: PasswordMethods, u0: nat, n0: nat)
    requires Run(rows, entries, pm, u0, n0).Done?
    ensures var p := Run(rows, entries, pm, u0, n0);
      && p.updated + p.created == u0 + n0 + Touched(rows, entries, pm)
      && Touched(rows, entries, pm) <= |entries|
      && (Touched(rows, entries, pm) == 0 ==> p.rows == rows)
    decreases |entries|
  {
    if entries != [] {
      match Apply(rows, entries[0], pm)
      case Updated(r) => CountsAddUp(r, entries[1..], pm, u0 + 1, n0);
      case Created(r) => CountsAddUp(r, entries[1..], pm, u0, n0 + 1);
      case Skipped => CountsAddUp(rows, entries[1..], pm, u0, n0);
    }
  }

  /** update_users with the intended class: the counts it reports are the
      entries that changed something, and with both at zero nothing is
      committed and the table is as before. */
  lemma UpdateUsersReport(rows: seq<LegacyUser>, entries: seq<Json>)
    requires Committable(rows)
    ensures var (r, after) := UpdateUsersOutcome(rows, entries, Provided);
      var p := Run(rows, entries, Provided, 0, 0);
      && Committable(after)
      && (r.Err? ==> after == rows)
      && (r.Ok? ==> p.Done? && r.value == Counts(p.updated, p.created) && after == p.rows)
      && (r.Ok? ==> p.updated + p.created == Touched(rows, entries, Provided))
      && (r.Ok? && p.updated == 0 && p.created == 0 ==> after == rows)
  {
    match Run(rows, entries, Provided, 0, 0)
    case Failed =>
    case Done(_, _, _) => CountsAddUp(rows, entries, Provided, 0, 0);
  }

  /** An entry with a 'password' key that updates a row: the intended
      class stores its hash, the shipped class fails the whole request. */
  lemma PasswordEntryCounterexample()
    ensures var rows := [LegacyUser(1, JStr("Ala"), JStr("ala@example.com"), None, JBool(false))];
      var entries := [JObj(map["id" := JInt(1), "password" := JStr("secret")])];
      && UpdateUsersOutcome(rows, entries, Provided).0 == Ok(Counts(1, 0))
      && UpdateUsersOutcome(rows, entries, Provided).1[0].passwordHash == Some(AppUserModel.Digest("secret"))
      && UpdateUsersOutcome(rows, entries, Missing) == (Err(Failure("Failed to update users")), rows)
  {
    var rows := [LegacyUser(1, JStr("Ala"), JStr("ala@example.com"), None, JBool(false))];
    var d := map["id" := JInt(1), "password" := JStr("secret")];
    var entries := [JObj(d)];
    assert FindTarget(rows, d) == ById(0);
    assert entries[1..] == [];
    var after := rows[0 := Revised(rows[0], d, true, Some(AppUserModel.Digest("secret")))];
    assert Run(rows, entries, Provided, 0, 0) == Done(after, 1, 0);
    assert Committable(after);
  }

  // ---------------------------------------------------------------------
  // The table the controller writes

  class LegacyUserTable {
    var rows: seq<LegacyUser>

    ghost predicate Valid()
      reads this
    {
      Committable(rows)
    }

    constructor ()
      ensures Valid() && rows == []
    {
      rows := [];
    }

    /** register_user, with the password methods the controller expects. */
    method RegisterUser(data: map<string, Json>) returns (r: Result<map<string, Json>>)
      requires Valid()
      modifies this
      ensures Valid()
      ensures (r, rows) == RegisterOutcome(old(rows), data)
    {
      var refusal := RegisterRefusal(rows, data);
      if refusal.Some? {
        return Err(refusal.value);
      }
      var u := Registered(rows, data);
      if !Fits(rows, u) {
        return Err(Failure("Registration failed"));
      }
      AppendFits(rows, u);
      rows := rows + [u];
      r := Ok(ToDict(u));
    }

    /** update_users, with the password methods the controller expects:
        the entries are applied one by one to the session's rows, which
        are committed when a counter moved and rolled back on any
        exception. */
    method UpdateUsers(entries: seq<Json>) returns (r: Result<map<string, Json>>)
      requires Valid()
      modifies this
      ensures Valid()
      ensures (r, rows) == UpdateUsersOutcome(old(rows), entries, Provided)
    {
      var before := rows;
      var updated, created := 0, 0;
      var i := 0;
      while i < |entries|
        invariant 0 <= i <= |entries|
        invariant Run(before, entries, Provided, 0, 0) == Run(rows, entries[i..], Provided, updated, created)
      {
        assert entries[i..][0] == entries[i] && entries[i..][1..] == entries[i + 1..];
        var step := Apply(rows, entries[i], Provided);
        match step {
          case Raised =>
            rows := before;
            return Err(Failure("Failed to update users"));
          case Updated(after) =>
            rows := after;
            updated := updated + 1;
          case Created(after) =>
            rows := after;
            created := created + 1;
          case Skipped =>
        }
        i := i + 1;
      }
      assert entries[i..] == [];
      if updated > 0 || created > 0 {
        if !Committable(rows) {
          rows := before;
          return Err(Failure("Failed to update users"));
        }
      } else {
        CountsAddUp(before, entries, Provided, 0, 0);
      }
      r := Ok(Counts(updated, created));
    }
  }
}
