/** backend/app/routes.py: the resources whose handlers hold decisions of
    their own. The JWT identity of this backend is text (`str(user.id)` or
    `str(user.google_id)`), so it is a `string` here; a handler's answer is
    a status and a body. */
module AppRoutes {
  import opened Common
  import opened AppUserModel
  import opened AppOfflinePayment
  import opened AppBlacklistedToken
  import opened AppUserController

  // ---------------------------------------------------------------------
  // UserMeResource.get

  /** Identities below one billion are primary keys; larger numbers are
      Google ids. */
  const GoogleIdThreshold := 1000000000

  /** The identity read as a primary key, when `int(identity)` succeeds
      and is below the threshold. */
  predicate IsSmallId(identity: string) {
    ParsePyInt(identity).Some? && ParsePyInt(identity).value < GoogleIdThreshold
  }

  /** One lookup: the primary key for a small number, the google_id
      otherwise. */
  function MeQuery(users: UserTable, identity: string): Option<User>
    reads users, users.users
  {
    if IsSmallId(identity) then users.Get(ParsePyInt(identity).value) else users.ByGoogleId(identity)
  }

  /** The two passes of `UserMeResource.get`: the first lookup, then, when
      it found nobody, the "other field" pass. That pass makes the same
      choice as the first, so it never finds anyone the first one missed. */
  function UserMeLookup(users: UserTable, identity: string): (r: Option<User>)
    reads users, users.users
    ensures r == MeQuery(users, identity)
    ensures r.Some? ==> r.value in users.users
  {
    var first :=
      match ParsePyInt(identity)
      case Some(n) => if n < GoogleIdThreshold then users.Get(n) else users.ByGoogleId(identity)
      case None => users.ByGoogleId(identity);
    if first.Some? then first
    else
      match ParsePyInt(identity)
      case Some(n) => if n >= GoogleIdThreshold then users.ByGoogleId(identity) else users.Get(n)
      case None => users.ByGoogleId(identity)
  }

  /** A small numeric identity is only ever a primary key: a user whose
      google_id is that text is not found through it. */
  lemma SmallIdNeverGoogleId(users: UserTable, identity: string)
    requires IsSmallId(identity)
    ensures UserMeLookup(users, identity) == users.Get(ParsePyInt(identity).value)
    ensures users.Get(ParsePyInt(identity).value).None? ==> UserMeLookup(users, identity).None?
  {
  }

  /** The identity a password login issues, `str(user.id)`, finds that
      user when the id is below the threshold. */
  lemma IssuedIdentityFindsUser(users: UserTable, u: User, identity: string)
    requires users.Valid() && u in users.users && u.id < GoogleIdThreshold
    requires identity == IntToString(u.id)
    ensures UserMeLookup(users, identity) == Some(u)
  {
    ParseIntToString(u.id, identity);
    var found := users.Get(u.id);
    IdsUnique(users, u, found.value);
  }

  /** The identity a Google login issues, `str(user.google_id)`, finds that
      user unless the google id reads as a small number. */
  lemma GoogleIdentityFindsUser(users: UserTable, u: User, gid: string)
    requires users.Valid() && u in users.users && u.googleId == Some(gid) && !IsSmallId(gid)
    ensures UserMeLookup(users, gid) == Some(u)
  {
    var found := users.ByGoogleId(gid);
    GoogleIdsUnique(users, u, found.value);
  }

  /** `UserMeResource.get`: the user's dictionary, or 404. */
  function UserMe(users: UserTable, identity: string): (resp: Response)
    reads users, users.users
    ensures resp.status == 200 <==> UserMeLookup(users, identity).Some?
    ensures resp.status == 200 ==> resp.body == UserMeLookup(users, identity).value.ToDict()
    ensures resp.status != 200 ==> resp == ErrorReply(404, "User not found")
  {
    match UserMeLookup(users, identity)
    case Some(u) => Response(200, u.ToDict())
    case None => ErrorReply(404, "User not found")
  }

  // ---------------------------------------------------------------------
  // UserResource.put

  /** The identity is the integer `user_id` of the path. */
  predicate OwnIdentity(identity: string, userId: int) {
    identity != "" && ParsePyInt(identity) == Some(userId)
  }

  /** `UserResource.put`: an empty identity is 401, one that is not an
      integer 401, another user's id 403, an empty body 400; then
      `update_user_data`, whose refusal is a 400. */
  method UserPut(users: UserTable, identity: string, userId: int, data: map<string, Json>) returns (resp: Response)
    requires users.Valid()
    modifies users.users
    ensures users.Valid() && users.users == old(users.users)
    ensures identity == "" ==> resp == ErrorReply(401, "Authentication required")
    ensures identity != "" && ParsePyInt(identity).None? ==> resp == ErrorReply(401, "Invalid user authentication")
    ensures identity != "" && ParsePyInt(identity).Some? && ParsePyInt(identity).value != userId ==>
              resp == ErrorReply(403, "You can only update your own data")
    ensures OwnIdentity(identity, userId) && |data| == 0 ==> resp == ErrorReply(400, "No data provided")
    ensures OwnIdentity(identity, userId) && |data| > 0 && old(UpdateDataError(users, userId, data)).Some? ==>
              resp == ErrorReply(400, old(UpdateDataError(users, userId, data)).value)
    ensures resp.status == 200 <==>
              OwnIdentity(identity, userId) && |data| > 0 && old(UpdateDataError(users, userId, data)).None?
    ensures resp.status != 200 ==> forall v :: v in users.users ==> unchanged(v)
    ensures resp.status == 200 ==>
      var u := old(users.Get(userId)).value;
      var name, email := Change(data, "username", old(u.username)), Change(data, "email", old(u.email));
      && u.username == (if name.Some? then name.value else old(u.username))
      && u.email == (if email.Some? then email.value else old(u.email))
      && u.passwordHash == old(u.passwordHash) && u.role == old(u.role) && u.isAdmin == old(u.isAdmin)
      && (forall v :: v in users.users && v != u ==> unchanged(v))
      && resp.body == map["message" := JStr("User updated successfully"), "user" := JObj(u.ToDict())]
  {
    if identity == "" {
      return ErrorReply(401, "Authentication required");
    }
    var numeric := ParsePyInt(identity);
    if numeric.None? {
      return ErrorReply(401, "Invalid user authentication");
    }
    if numeric.value != userId {
      return ErrorReply(403, "You can only update your own data");
    }
    if |data| == 0 {
      return ErrorReply(400, "No data provided");
    }
    var r, committed := UpdateUserData(users, userId, data);
    if r.Err? {
      return ErrorReply(400, r.msg);
    }
    resp := Response(200, map["message" := JStr("User updated successfully"), "user" := JObj(r.value)]);
  }

  // ---------------------------------------------------------------------
  // LogoutResource.post

  const LoggedOut := "Logged out successfully"

  /** The answer when a step raised: still 200, with a warning. */
  const LogoutWarning := Response(200, map["message" := JStr(LoggedOut),
                                           "warning" := JStr("Some cleanup operations may have failed")])

  function LogoutReply(all: Json): Response {
    Response(200, map["message" := JStr(LoggedOut), "logout_all" := all])
  }

  /** `LogoutResource.post`. `jti` and `exp` are the token's claims, None
      when absent; `data` is the body, `{}` when there is none. With a
      truthy 'logout_all' every token of the user is revoked; otherwise
      the current token is, when it has a jti and an exp. A user id that
      is not an integer raises, which the handler turns into a 200 with a
      warning; blacklisting that fails is only logged. The answer is
      always 200. The token's expiry goes through `datetime.fromtimestamp`,
      the server's naive local time, `utcOffset` seconds ahead of the UTC
      clock `now` it is later compared with. */
  method Logout(t: BlacklistTable, identity: string, jti: Option<string>, exp: Option<int>,
                data: map<string, Json>, now: int, stamp: string, utcOffset: int) returns (resp: Response)
    requires t.Valid()
    modifies t
    ensures t.Valid() && resp.status == 200 && "message" in resp.body && resp.body["message"] == JStr(LoggedOut)
    ensures var all := GetOr(data, "logout_all", JBool(false));
      ParsePyInt(identity).None? && (PyTruthy(all) || (jti.Some? && jti.value != "" && exp.Some? && exp.value != 0)) ==>
        resp == LogoutWarning && t.rows == old(t.rows)
    ensures var all := GetOr(data, "logout_all", JBool(false));
      PyTruthy(all) && ParsePyInt(identity).Some? ==>
        var uid := JInt(ParsePyInt(identity).value);
        var entry := UserWideJti(PyStr(uid), stamp);
        && resp == LogoutReply(all)
        && (t.rows == old(t.rows) <==> old(t.IsBlacklisted(entry)))
        && (t.rows != old(t.rows) ==>
              && t.rows == old(t.rows) + [BlacklistedToken(old(t.NextId()), entry, UserWideType, PyStr(uid),
                                                           now, now + UserWideLifetime)]
              && (uid.n != 0 ==> forall j, later :: now <= later < now + UserWideLifetime ==>
                                   IsTokenBlacklisted(t.rows, j, uid, later, false)))
    ensures var all := GetOr(data, "logout_all", JBool(false));
      !PyTruthy(all) && jti.Some? && jti.value != "" && exp.Some? && exp.value != 0 && ParsePyInt(identity).Some? ==>
        var uid := JInt(ParsePyInt(identity).value);
        && resp == LogoutReply(all)
        && IsTokenBlacklisted(t.rows, jti.value, JNull, now, false)
        && (t.rows == old(t.rows) <==> old(t.IsBlacklisted(jti.value)))
        && (t.rows != old(t.rows) ==>
              t.rows == old(t.rows) + [BlacklistedToken(old(t.NextId()), jti.value, "access", PyStr(uid), now, FromTimestamp(exp.value, utcOffset))])
    ensures var all := GetOr(data, "logout_all", JBool(false));
      !PyTruthy(all) && !(jti.Some? && jti.value != "" && exp.Some? && exp.value != 0) ==>
        resp == LogoutReply(all) && t.rows == old(t.rows)
  {
    var all := GetOr(data, "logout_all", JBool(false));
    if PyTruthy(all) {
      var numeric := ParsePyInt(identity);
      if numeric.None? {
        return LogoutWarning;
      }
      var ok := BlacklistAllUserTokens(t, JInt(numeric.value), now, stamp);
    } else if jti.Some? && jti.value != "" && exp.Some? && exp.value != 0 {
      var numeric := ParsePyInt(identity);
      if numeric.None? {
        return LogoutWarning;
      }
      var ok := BlacklistToken(t, jti.value, "access", JInt(numeric.value), FromTimestamp(exp.value, utcOffset), now);
    }
    resp := LogoutReply(all);
  }

  // ---------------------------------------------------------------------
  // UserOfflinePaymentRequestResource.post

  const OfflineRequired: seq<string> := ["amount", "paymentMethod", "description"]
  const OfflineFailed := "Failed to submit offline payment request"

  /** The first of `fields` that the body lacks or holds a falsy value for. */
  function FirstMissing(data: map<string, Json>, fields: seq<string>): (m: Option<string>)
    ensures m.None? <==> forall i :: 0 <= i < |fields| ==> fields[i] in data && PyTruthy(data[fields[i]])
    ensures m.Some? ==> exists i :: && 0 <= i < |fields| && fields[i] == m.value
                                    && !(fields[i] in data && PyTruthy(data[fields[i]]))
                                    && forall k :: 0 <= k < i ==> fields[k] in data && PyTruthy(data[fields[k]])
  {
    if fields == [] then None
    else if !(fields[0] in data && PyTruthy(data[fields[0]])) then Some(fields[0])
    else
      var rest := FirstMissing(data, fields[1..]);
      assert rest.Some? ==> exists i :: && 0 <= i < |fields| - 1 && fields[1..][i] == rest.value
                                       && !(fields[1..][i] in data && PyTruthy(data[fields[1..][i]]))
                                       && forall k :: 0 <= k < i ==> fields[1..][k] in data && PyTruthy(data[fields[1..][k]]);
      rest
  }

  /** The loop over the required fields. */
  method MissingField(data: map<string, Json>) returns (m: Option<string>)
    ensures m == FirstMissing(data, OfflineRequired)
  {
    var i := 0;
    while i < |OfflineRequired|
      invariant 0 <= i <= |OfflineRequired|
      invariant FirstMissing(data, OfflineRequired) == FirstMissing(data, OfflineRequired[i..])
    {
      var field := OfflineRequired[i];
      assert OfflineRequired[i..][0] == field && OfflineRequired[i..][1..] == OfflineRequired[i + 1..];
      if !(field in data && PyTruthy(data[field])) {
        return Some(field);
      }
      i := i + 1;
    }
    m := None;
  }

  /** A body with no missing field has all three, each truthy. */
  lemma RequiredPresent(data: map<string, Json>)
    requires FirstMissing(data, OfflineRequired).None?
    ensures "amount" in data && "paymentMethod" in data && "description" in data
    ensures PyTruthy(data["amount"]) && PyTruthy(data["paymentMethod"]) && PyTruthy(data["description"])
  {
    assert OfflineRequired[0] == "amount" && OfflineRequired[1] == "paymentMethod" && OfflineRequired[2] == "description";
  }

  /** The number of pending requests of a user. */
  function PendingCount(ps: seq<OfflinePayment>, userId: int): nat
    reads ps
  {
    if ps == [] then 0
    else PendingCount(ps[..|ps| - 1], userId) + (if ps[|ps| - 1].userId == userId && ps[|ps| - 1].status == Pending then 1 else 0)
  }

  lemma {:induction false} NoPendingCountsZero(ps: seq<OfflinePayment>, userId: int)
    requires forall p :: p in ps ==> !(p.userId == userId && p.status == Pending)
    ensures PendingCount(ps, userId) == 0
  {
    if ps != [] {
      assert ps[|ps| - 1] in ps;
      assert forall p :: p in ps[..|ps| - 1] ==> p in ps;
      NoPendingCountsZero(ps[..|ps| - 1], userId);
    }
  }

  /** The outcome of the checks before the row is written. */
  datatype Check = Pass(user: User) | Refuse(status: int, error: string)

  /** `amount` is what `float(j)` gives (the number, kept as a JSON
      value), None when it raises: an int or a bool is converted, so is
      text of an optional sign and digits; NULL, a list and a dict raise,
      and so does empty text. Other text is left to Python's float
      grammar, which is not part of this model. */
  predicate FloatOf(j: Json, amount: Option<Json>) {
    match j
    case JInt(n) => amount == Some(JInt(n))
    case JBool(b) => amount == Some(JInt(if b then 1 else 0))
    case JStr(s) =>
      (SignedDecimal(s).Some? ==> amount == Some(JInt(SignedDecimal(s).value)))
      && (s == "" ==> amount.None?)
    case _ => amount.None?
  }

  /** The checks of the handler, in their order. `amount` is what
      `float(data['amount'])` gives, None when it raises. */
  function OfflineRequestCheck(users: UserTable, payments: OfflinePaymentTable, identity: string,
                               data: map<string, Json>, amount: Option<Json>): (c: Check)
    reads users, users.users, payments, payments.payments
    ensures ParsePyInt(identity).None? ==> c == Refuse(500, OfflineFailed)
    ensures ParsePyInt(identity).Some? && users.Get(ParsePyInt(identity).value).None? ==>
              c == Refuse(404, "User not found")
    ensures ParsePyInt(identity).Some? && users.Get(ParsePyInt(identity).value).Some? ==>
              c == RequestCheckFor(users.Get(ParsePyInt(identity).value).value, payments, data, amount)
  {
    match ParsePyInt(identity)
    case None => Refuse(500, OfflineFailed)
    case Some(n) =>
      match users.Get(n)
      case None => Refuse(404, "User not found")
      case Some(u) => RequestCheckFor(u, payments, data, amount)
  }

  /** The checks once the user `u` is found: premium access, a pending
      request, an empty body, a missing field, then the amount. */
  function RequestCheckFor(u: User, payments: OfflinePaymentTable, data: map<string, Json>,
                           amount: Option<Json>): (c: Check)
    reads u, payments, payments.payments
    ensures u.hasPremiumAccess ==> c == Refuse(400, "User already has premium access")
    ensures !u.hasPremiumAccess && payments.PendingOf(u.id).Some? ==>
              c == Refuse(400, "You already have a pending offline payment request")
    ensures c.Pass? <==> && !u.hasPremiumAccess && payments.PendingOf(u.id).None?
                         && |data| > 0 && FirstMissing(data, OfflineRequired).None? && amount.Some?
    ensures c.Pass? ==> c.user == u
    ensures c.Pass? ==> && "amount" in data && "paymentMethod" in data && "description" in data
                        && PyTruthy(data["amount"]) && PyTruthy(data["paymentMethod"]) && PyTruthy(data["description"])
    ensures !u.hasPremiumAccess && payments.PendingOf(u.id).None? ==>
              && (|data| == 0 ==> c == Refuse(400, "No data provided"))
              && (|data| > 0 && FirstMissing(data, OfflineRequired).Some? ==>
                    c == Refuse(400, "Missing required field: " + FirstMissing(data, OfflineRequired).value))
              && (|data| > 0 && FirstMissing(data, OfflineRequired).None? && amount.None? ==>
                    c == Refuse(500, OfflineFailed))
  {
    if u.hasPremiumAccess then Refuse(400, "User already has premium access")
    else if payments.PendingOf(u.id).Some? then Refuse(400, "You already have a pending offline payment request")
    else if |data| == 0 then Refuse(400, "No data provided")
    else if FirstMissing(data, OfflineRequired).Some? then
      Refuse(400, "Missing required field: " + FirstMissing(data, OfflineRequired).value)
    else if amount.None? then Refuse(500, OfflineFailed)
    else RequiredPresent(data); Pass(u)
  }

  /** Past the other checks, an int amount is filed and a list or dict
      amount, which `float` refuses, is the handler's 500. */
  lemma AmountDecides(u: User, payments: OfflinePaymentTable, data: map<string, Json>, amount: Option<Json>)
    requires !u.hasPremiumAccess && payments.PendingOf(u.id).None?
    requires |data| > 0 && FirstMissing(data, OfflineRequired).None?
    requires "amount" in data && FloatOf(data["amount"], amount)
    ensures data["amount"].JInt? ==> RequestCheckFor(u, payments, data, amount) == Pass(u)
    ensures data["amount"].JArr? || data["amount"].JObj? ==> RequestCheckFor(u, payments, data, amount) == Refuse(500, OfflineFailed)
  {
  }

  /** What a nullable text column of `offline_payments` reads back: NULL,
      or the SQLite text of a string, number or bool; None for a list or
      dict, which the commit cannot bind. */
  function StoredText(j: Json): (r: Option<Json>)
    ensures r.None? <==> j.JArr? || j.JObj?
    ensures j.JStr? || j.JNull? ==> r == Some(j)
    ensures j.JInt? ==> r == Some(JStr(IntToString(j.n)))
    ensures j.JBool? ==> r == Some(JStr(if j.b then "1" else "0"))
  {
    match TextCell(j)
    case None => None
    case Some(None) => Some(JNull)
    case Some(Some(s)) => Some(JStr(s))
  }

  /** The body's three text fields can all be bound at the commit. */
  predicate TextFieldsBind(data: map<string, Json>)
    requires "paymentMethod" in data && "description" in data
  {
    && StoredText(data["paymentMethod"]).Some? && StoredText(data["description"]).Some?
    && StoredText(GetOr(data, "referenceNumber", JStr(""))).Some?
  }

  /** `UserOfflinePaymentRequestResource.post`: once the checks pass, one
      'pending' row for the user with admin_id 1 is appended and its id is
      answered with 201, unless a text field is a list or dict, whose
      failed commit is the 500 with nothing added. The user then has
      exactly one pending request, so this route never lets a user hold
      two. */
  method RequestOfflinePayment(users: UserTable, payments: OfflinePaymentTable, identity: string,
                               data: map<string, Json>, amount: Option<Json>, now: int) returns (resp: Response)
    requires users.Valid() && payments.Valid()
    requires "amount" in data ==> FloatOf(data["amount"], amount)
    modifies payments
    ensures payments.Valid()
    ensures old(OfflineRequestCheck(users, payments, identity, data, amount)).Refuse? ==>
              var c := old(OfflineRequestCheck(users, payments, identity, data, amount));
              resp == ErrorReply(c.status, c.error) && payments.payments == old(payments.payments)
    ensures old(OfflineRequestCheck(users, payments, identity, data, amount)).Pass? && !TextFieldsBind(data) ==>
              resp == ErrorReply(500, OfflineFailed) && payments.payments == old(payments.payments)
    ensures old(OfflineRequestCheck(users, payments, identity, data, amount)).Pass? && TextFieldsBind(data) ==>
      var u := old(OfflineRequestCheck(users, payments, identity, data, amount)).user;
      Filed(old(payments.payments), payments.payments, u, data, amount, now, resp)
  {
    var c := OfflineRequestCheck(users, payments, identity, data, amount);
    if c.Refuse? {
      return ErrorReply(c.status, c.error);
    }
    var u := c.user;
    var paymentMethod := StoredText(data["paymentMethod"]);
    var description := StoredText(data["description"]);
    var reference := StoredText(GetOr(data, "referenceNumber", JStr("")));
    if paymentMethod.None? || description.None? || reference.None? {
      return ErrorReply(500, OfflineFailed);
    }
    ghost var before := payments.payments;
    var adminRow := users.Get(1);
    var p := FileRequest(payments, u, amount.value, paymentMethod.value, description.value, reference.value, now,
                         if adminRow.Some? then adminRow.value else null);
    resp := Response(201, map["message" := JStr("Offline payment request submitted successfully"),
                              "request_id" := JInt(p.id)]);
    FiledRow(before, payments.payments, p, u, data, amount, now, resp);
  }

  /** The table `after` is `before` with one new 'pending' row for `u` and
      admin_id 1, holding the body's fields, whose id `resp` answers with
      201; `u` then has exactly one pending request. */
  ghost predicate Filed(before: seq<OfflinePayment>, after: seq<OfflinePayment>, u: User,
                        data: map<string, Json>, amount: Option<Json>, now: int, resp: Response)
    reads after, u
  {
    && |after| == |before| + 1 && after[..|before|] == before
    && var p := after[|after| - 1];
    && p.userId == u.id && p.status == Pending && p.adminId == 1 && p.user == u
    && amount.Some? && p.amount == amount.value
    && "paymentMethod" in data && Some(p.paymentMethod) == StoredText(data["paymentMethod"])
    && "description" in data && Some(p.description) == StoredText(data["description"])
    && Some(p.referenceNumber) == StoredText(GetOr(data, "referenceNumber", JStr(""))) && p.createdAt == Some(now)
    && resp == Response(201, map["message" := JStr("Offline payment request submitted successfully"),
                                 "request_id" := JInt(p.id)])
    && PendingCount(after, u.id) == 1
  }

  lemma FiledRow(before: seq<OfflinePayment>, after: seq<OfflinePayment>, p: OfflinePayment, u: User,
                 data: map<string, Json>, amount: Option<Json>, now: int, resp: Response)
    requires after == before + [p] && PendingCount(after, u.id) == 1
    requires p.userId == u.id && p.status == Pending && p.adminId == 1 && p.user == u
    requires amount.Some? && p.amount == amount.value
    requires "paymentMethod" in data && Some(p.paymentMethod) == StoredText(data["paymentMethod"])
    requires "description" in data && Some(p.description) == StoredText(data["description"])
    requires Some(p.referenceNumber) == StoredText(GetOr(data, "referenceNumber", JStr(""))) && p.createdAt == Some(now)
    requires resp == Response(201, map["message" := JStr("Offline payment request submitted successfully"),
                                       "request_id" := JInt(p.id)])
    ensures Filed(before, after, u, data, amount, now, resp)
  {
    assert after[..|before|] == before;
  }

  /** The new 'pending' row with admin_id 1, appended to a table where the
      user has no pending request. */
  method FileRequest(payments: OfflinePaymentTable, u: User, amount: Json, paymentMethod: Json, description: Json,
                     referenceNumber: Json, now: int, admin: User?) returns (p: OfflinePayment)
    requires payments.Valid() && payments.PendingOf(u.id).None?
    modifies payments
    ensures payments.Valid() && fresh(p) && payments.payments == old(payments.payments) + [p]
    ensures p.userId == u.id && p.status == Pending && p.adminId == 1 && p.user == u && p.admin == admin
    ensures p.amount == amount && p.paymentMethod == paymentMethod && p.description == description
    ensures p.referenceNumber == referenceNumber && p.createdAt == Some(now)
    ensures PendingCount(payments.payments, u.id) == 1
  {
    NoPendingCountsZero(payments.payments, u.id);
    ghost var before := payments.payments;
    p := payments.Add(u.id, amount, description, 1, Pending, paymentMethod, referenceNumber, now, u, admin);
    assert payments.payments[..|payments.payments| - 1] == before;
  }
}
