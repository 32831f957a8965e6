/** backend/app/admin_controller.py: the administrator's actions on users
    and offline payments. Every action reports its failure as
    "Failed to <action>: <reason>", and a failed action stores nothing
    (the session is rolled back). The acting administrator is the user
    `get_current_admin_user` gives for the request's JWT identity. */
module AppAdminController {
  import opened Common
  import opened AppUserModel
  import opened AppOfflinePayment
  import opened AppAdminMiddleware

  /** `str(e)` for the AttributeError of `None.id`. */
  const NoneHasNoId := "'NoneType' object has no attribute 'id'"

  /** The reply of a successful action: a message and the row's dict. */
  function Reply(message: string, key: string, row: map<string, Json>): map<string, Json> {
    map["message" := JStr(message), key := JObj(row)]
  }

  // ---------------------------------------------------------------------
  // Roles

  /** `promote_user_to_admin`: a missing user and a user whose role is
      already 'admin' are refused; otherwise the user becomes an admin. */
  method PromoteUserToAdmin(users: UserTable, userId: int) returns (r: Result<map<string, Json>>)
    requires users.Valid()
    modifies users.users
    ensures users.Valid() && users.users == old(users.users)
    ensures old(users.Get(userId)).None? ==> r == Err("Failed to promote user: User not found")
    ensures old(users.Get(userId)).Some? && old(users.Get(userId).value.role) == "admin" ==>
              r == Err("Failed to promote user: User is already an admin")
    ensures r.Ok? <==> old(users.Get(userId)).Some? && old(users.Get(userId).value.role) != "admin"
    ensures r.Err? ==> forall v :: v in users.users ==> unchanged(v)
    ensures r.Ok? ==> var u := old(users.Get(userId)).value;
              && u.role == "admin" && u.isAdmin && u.IsAdminUser()
              && u.username == old(u.username) && u.email == old(u.email)
              && u.hasPremiumAccess == old(u.hasPremiumAccess) && u.passwordHash == old(u.passwordHash)
              && (forall v :: v in users.users && v != u ==> unchanged(v))
              && r.value == Reply("User " + u.username + " promoted to admin successfully", "user", u.ToDict())
  {
    var found := users.Get(userId);
    if found.None? {
      return Err("Failed to promote user: User not found");
    }
    var u := found.value;
    if u.role == "admin" {
      return Err("Failed to promote user: User is already an admin");
    }
    users.Promote(u);
    r := Ok(Reply("User " + u.username + " promoted to admin successfully", "user", u.ToDict()));
  }

  /** `demote_admin_to_user`: a missing user, a user whose role is not
      'admin', and the acting administrator themself are refused; with no
      acting administrator the `.id` access raises once those checks pass. */
  method DemoteAdminToUser(users: UserTable, identity: Json, userId: int) returns (r: Result<map<string, Json>>)
    requires users.Valid()
    modifies users.users
    ensures users.Valid() && users.users == old(users.users)
    ensures r.Err? ==> forall v :: v in users.users ==> unchanged(v)
    ensures old(users.Get(userId)).None? ==> r == Err("Failed to demote user: User not found")
    ensures old(users.Get(userId)).Some? ==>
      var u, admin := old(users.Get(userId)).value, old(CurrentAdminUser(users, identity));
      && (r == Err("Failed to demote user: User is not an admin") <==> old(u.role) != "admin")
      && (old(u.role) == "admin" && admin == null ==> r == Err("Failed to demote user: " + NoneHasNoId))
      && (old(u.role) == "admin" && admin != null && old(admin.id) == userId ==>
            r == Err("Failed to demote user: Cannot demote yourself"))
      && (r.Ok? <==> old(u.role) == "admin" && admin != null && old(admin.id) != userId)
      && (r.Ok? ==> && u.role == "user" && !u.isAdmin && !u.IsAdminUser()
                    && u.username == old(u.username) && u.email == old(u.email)
                    && u.hasPremiumAccess == old(u.hasPremiumAccess)
                    && (forall v :: v in users.users && v != u ==> unchanged(v))
                    && r.value == Reply("Admin " + u.username + " demoted to user successfully", "user", u.ToDict()))
  {
    var admin := CurrentAdminUser(users, identity);
    var found := users.Get(userId);
    if found.None? {
      return Err("Failed to demote user: User not found");
    }
    var u := found.value;
    if u.role != "admin" {
      return Err("Failed to demote user: User is not an admin");
    }
    if admin == null {
      return Err("Failed to demote user: " + NoneHasNoId);
    }
    if admin.id == u.id {
      return Err("Failed to demote user: Cannot demote yourself");
    }
    users.Demote(u);
    r := Ok(Reply("Admin " + u.username + " demoted to user successfully", "user", u.ToDict()));
  }

  /** Once demoted a user is no longer an admin, and a second demotion is
      refused. */
  lemma DemotedUserIsNotAdmin(u: User)
    requires u.role == "user" && !u.isAdmin
    ensures !u.IsAdminUser() && u.role != "admin"
  {
  }

  // ---------------------------------------------------------------------
  // Offline payments

  /** The checks both payment actions make before writing, in their
      order: the payment exists, it does not already have the status the
      action gives, and there is an acting administrator (whose `.id`
      raises otherwise). The payment and the administrator on success. */
  function PaymentGuard(users: UserTable, payments: OfflinePaymentTable, paymentId: int, identity: Json,
                        action: string, target: string, already: string): (g: Result<(OfflinePayment, User)>)
    reads users, users.users, payments, payments.payments
    ensures payments.Get(paymentId).None? ==> g == Err(action + ": Payment not found")
    ensures payments.Get(paymentId).Some? ==>
      var p, admin := payments.Get(paymentId).value, CurrentAdminUser(users, identity);
      && (p.status == target ==> g == Err(action + ": " + already))
      && (p.status != target && admin == null ==> g == Err(action + ": " + NoneHasNoId))
      && (g.Ok? <==> p.status != target && admin != null)
      && (g.Ok? ==> g.value.0 == p && g.value.1 == admin)
  {
    match payments.Get(paymentId)
    case None => Err(action + ": Payment not found")
    case Some(p) =>
      if p.status == target then Err(action + ": " + already)
      else
        var admin := CurrentAdminUser(users, identity);
        if admin == null then Err(action + ": " + NoneHasNoId) else Ok((p, admin))
  }

  function ApproveGuard(users: UserTable, payments: OfflinePaymentTable, paymentId: int, identity: Json)
    : Result<(OfflinePayment, User)>
    reads users, users.users, payments, payments.payments
  {
    PaymentGuard(users, payments, paymentId, identity, "Failed to approve payment", Approved, "Payment already approved")
  }

  function RejectGuard(users: UserTable, payments: OfflinePaymentTable, paymentId: int, identity: Json)
    : Result<(OfflinePayment, User)>
    reads users, users.users, payments, payments.payments
  {
    PaymentGuard(users, payments, paymentId, identity, "Failed to reject payment", Rejected, "Payment already rejected")
  }

  /** `approve_offline_payment`: once `ApproveGuard` passes, a 'pending' or
      'rejected' payment becomes 'approved' at `now` with the acting
      administrator's id, and the payer, when the users table has them,
      gets premium access from `now`. The request's 'notes' is written to
      `admin_notes`, which is not a column: the stored notes do not
      change. */
  method ApproveOfflinePayment(users: UserTable, payments: OfflinePaymentTable, paymentId: int,
                               identity: Json, now: int) returns (r: Result<map<string, Json>>)
    requires users.Valid() && payments.Valid()
    modifies payments.payments, users.users
    ensures users.Valid() && users.users == old(users.users) && payments.payments == old(payments.payments)
    ensures old(ApproveGuard(users, payments, paymentId, identity)).Err? ==>
              && r == Err(old(ApproveGuard(users, payments, paymentId, identity)).msg)
              && (forall v :: v in users.users ==> unchanged(v))
              && (forall q :: q in payments.payments ==> unchanged(q))
    ensures old(ApproveGuard(users, payments, paymentId, identity)).Ok? ==>
      var (p, admin) := old(ApproveGuard(users, payments, paymentId, identity)).value;
      && p.status == Approved && p.approvedAt == Some(now) && p.adminId == old(admin.id)
      && p.notes == old(p.notes) && p.userId == old(p.userId) && p.amount == old(p.amount)
      && (forall q :: q in payments.payments && q != p ==> unchanged(q))
      && r == Ok(Reply("Payment approved successfully", "payment", p.ToDict()))
      && (old(users.Get(p.userId)).None? ==> forall v :: v in users.users ==> unchanged(v))
      && (old(users.Get(p.userId)).Some? ==>
            var u := old(users.Get(p.userId)).value;
            && u.hasPremiumAccess && u.premiumSince == Some(now)
            && u.role == old(u.role) && u.email == old(u.email) && u.username == old(u.username)
            && (forall v :: v in users.users && v != u ==> unchanged(v)))
  {
    var g := ApproveGuard(users, payments, paymentId, identity);
    if g.Err? {
      return Err(g.msg);
    }
    var (p, admin) := g.value;
    ApplyApproval(users, p, admin.id, now);
    r := Ok(Reply("Payment approved successfully", "payment", p.ToDict()));
  }

  /** The writes of `approve_offline_payment` once its checks passed. */
  method ApplyApproval(users: UserTable, p: OfflinePayment, adminId: int, now: int)
    requires users.Valid()
    modifies p, users.users
    ensures users.Valid() && users.users == old(users.users)
    ensures p.status == Approved && p.approvedAt == Some(now) && p.adminId == adminId
    ensures p.notes == old(p.notes) && p.userId == old(p.userId) && p.amount == old(p.amount)
    ensures old(users.Get(p.userId)).None? ==> forall v :: v in users.users ==> unchanged(v)
    ensures old(users.Get(p.userId)).Some? ==>
              var u := old(users.Get(p.userId)).value;
              && u.hasPremiumAccess && u.premiumSince == Some(now)
              && u.role == old(u.role) && u.email == old(u.email) && u.username == old(u.username)
              && (forall v :: v in users.users && v != u ==> unchanged(v))
  {
    ghost var payer := users.Get(p.userId);
    GrantPayer(users, p.userId, now);
    MarkApproved(p, adminId, now);
    assert payer.None? ==> forall v :: v in users.users ==> unchanged(v);
  }

  /** `User.query.get(payment.user_id)` and, when found, premium access
      from `now`. */
  method GrantPayer(users: UserTable, userId: int, now: int)
    requires users.Valid()
    modifies users.users
    ensures users.Valid() && users.users == old(users.users)
    ensures old(users.Get(userId)).None? ==> forall v :: v in users.users ==> unchanged(v)
    ensures old(users.Get(userId)).Some? ==>
              var u := old(users.Get(userId)).value;
              && u.hasPremiumAccess && u.premiumSince == Some(now)
              && u.role == old(u.role) && u.email == old(u.email) && u.username == old(u.username)
              && (forall v :: v in users.users && v != u ==> unchanged(v))
  {
    var payer := users.Get(userId);
    if payer.Some? {
      users.StartPremium(payer.value, now);
    }
  }

  /** The payment columns `approve_offline_payment` writes. */
  method MarkApproved(p: OfflinePayment, adminId: int, now: int)
    modifies p
    ensures p.status == Approved && p.approvedAt == Some(now) && p.adminId == adminId
    ensures p.id == old(p.id) && p.userId == old(p.userId) && p.amount == old(p.amount)
    ensures p.currency == old(p.currency) && p.description == old(p.description)
    ensures p.paymentMethod == old(p.paymentMethod) && p.referenceNumber == old(p.referenceNumber)
    ensures p.notes == old(p.notes) && p.createdAt == old(p.createdAt)
    ensures p.user == old(p.user) && p.admin == old(p.admin)
  {
    p.status := Approved;
    p.approvedAt := Some(now);
    p.adminId := adminId;
  }

  /** `reject_offline_payment`: once `RejectGuard` passes, the payment
      becomes 'rejected' with the acting administrator's id. The payer
      keeps any premium access an earlier approval gave, and the request's
      'reason' is not stored. */
  method RejectOfflinePayment(users: UserTable, payments: OfflinePaymentTable, paymentId: int,
                              identity: Json) returns (r: Result<map<string, Json>>)
    requires users.Valid() && payments.Valid()
    modifies payments.payments
    ensures payments.payments == old(payments.payments)
    ensures old(RejectGuard(users, payments, paymentId, identity)).Err? ==>
              && r == Err(old(RejectGuard(users, payments, paymentId, identity)).msg)
              && (forall q :: q in payments.payments ==> unchanged(q))
    ensures old(RejectGuard(users, payments, paymentId, identity)).Ok? ==>
      var (p, admin) := old(RejectGuard(users, payments, paymentId, identity)).value;
      && p.status == Rejected && p.adminId == admin.id && p.approvedAt == old(p.approvedAt)
      && p.notes == old(p.notes) && p.userId == old(p.userId) && p.amount == old(p.amount)
      && (forall q :: q in payments.payments && q != p ==> unchanged(q))
      && r == Ok(Reply("Payment rejected successfully", "payment", p.ToDict()))
  {
    var g := RejectGuard(users, payments, paymentId, identity);
    if g.Err? {
      return Err(g.msg);
    }
    var (p, admin) := g.value;
    p.status := Rejected;
    p.adminId := admin.id;
    r := Ok(Reply("Payment rejected successfully", "payment", p.ToDict()));
  }

  /** `created_at DESC`: `a` may come before `b`. A missing date sorts
      last. */
  predicate NotOlder(a: OfflinePayment, b: OfflinePayment)
    reads a, b
  {
    b.createdAt.None? || (a.createdAt.Some? && a.createdAt.value >= b.createdAt.value)
  }

  predicate NewestFirst(ps: seq<OfflinePayment>)
    reads ps
  {
    forall i, j :: 0 <= i < j < |ps| ==> NotOlder(ps[i], ps[j])
  }

  /** `p` placed before the first row it is not older than. */
  function InsertByDate(p: OfflinePayment, ps: seq<OfflinePayment>): (r: seq<OfflinePayment>)
    reads p, ps
    ensures forall i :: 0 <= i < |r| ==> r[i] == p || r[i] in ps
  {
    if ps == [] || NotOlder(p, ps[0]) then [p] + ps
    else
      [ps[0]] + InsertByDate(p, ps[1..])
  }

  lemma {:induction false} InsertIsPermutation(p: OfflinePayment, ps: seq<OfflinePayment>)
    ensures multiset(InsertByDate(p, ps)) == multiset(ps) + multiset{p}
  {
    if ps != [] && !NotOlder(p, ps[0]) {
      InsertIsPermutation(p, ps[1..]);
      assert ps == [ps[0]] + ps[1..];
    }
  }

  lemma {:induction false} InsertKeepsNewestFirst(p: OfflinePayment, ps: seq<OfflinePayment>)
    requires NewestFirst(ps)
    ensures NewestFirst(InsertByDate(p, ps))
  {
    if ps != [] && !NotOlder(p, ps[0]) {
      var rest := InsertByDate(p, ps[1..]);
      InsertKeepsNewestFirst(p, ps[1..]);
      InsertIsPermutation(p, ps[1..]);
      forall i | 0 <= i < |rest|
        ensures NotOlder(ps[0], rest[i])
      {
        FromInsert(p, ps, rest, i);
      }
      PrependNewest(ps[0], rest);
    }
  }

  /** An element of the insertion into the tail is `p` or a later row. */
  lemma FromInsert(p: OfflinePayment, ps: seq<OfflinePayment>, rest: seq<OfflinePayment>, i: int)
    requires NewestFirst(ps) && ps != [] && !NotOlder(p, ps[0])
    requires multiset(rest) == multiset(ps[1..]) + multiset{p} && 0 <= i < |rest|
    ensures NotOlder(ps[0], rest[i])
  {
    assert rest[i] in multiset(rest);
    if rest[i] != p {
      assert rest[i] in multiset(ps[1..]);
      var k :| 0 <= k < |ps[1..]| && ps[1..][k] == rest[i];
      assert ps[k + 1] == rest[i];
    }
  }

  lemma PrependNewest(a: OfflinePayment, rest: seq<OfflinePayment>)
    requires NewestFirst(rest) && forall i :: 0 <= i < |rest| ==> NotOlder(a, rest[i])
    ensures NewestFirst([a] + rest)
  {
    var r := [a] + rest;
    forall i, j | 0 <= i < j < |r|
      ensures NotOlder(r[i], r[j])
    {
      if i == 0 {
        assert r[j] == rest[j - 1];
      } else {
        assert r[i] == rest[i - 1] && r[j] == rest[j - 1];
      }
    }
  }

  /** The rows in `created_at DESC` order; rows with the same date may come
      in either order, as in SQL. */
  function SortNewestFirst(ps: seq<OfflinePayment>): (r: seq<OfflinePayment>)
    reads ps
    ensures forall i :: 0 <= i < |r| ==> r[i] in ps
  {
    if ps == [] then []
    else
      var tail := SortNewestFirst(ps[1..]);
      assert forall i :: 0 <= i < |tail| ==> tail[i] in ps;
      InsertByDate(ps[0], tail)
  }

  lemma {:induction false} SortIsPermutation(ps: seq<OfflinePayment>)
    ensures multiset(SortNewestFirst(ps)) == multiset(ps)
  {
    if ps != [] {
      SortIsPermutation(ps[1..]);
      InsertIsPermutation(ps[0], SortNewestFirst(ps[1..]));
      assert ps == [ps[0]] + ps[1..];
    }
  }

  lemma {:induction false} SortIsNewestFirst(ps: seq<OfflinePayment>)
    ensures NewestFirst(SortNewestFirst(ps))
  {
    if ps != [] {
      SortIsNewestFirst(ps[1..]);
      InsertKeepsNewestFirst(ps[0], SortNewestFirst(ps[1..]));
    }
  }

  function WithStatus(ps: seq<OfflinePayment>, status: string): (r: seq<OfflinePayment>)
    reads ps
    ensures forall i :: 0 <= i < |r| ==> r[i] in ps && r[i].status == status
    ensures forall p :: p in ps && p.status == status ==> p in r
    ensures multiset(r) <= multiset(ps)
    ensures forall p :: p in ps && p.status == status ==> multiset(r)[p] == multiset(ps)[p]
  {
    if ps == [] then []
    else
      assert ps == [ps[0]] + ps[1..];
      (if ps[0].status == status then [ps[0]] else []) + WithStatus(ps[1..], status)
  }

  /** The rows `get_offline_payments` lists (before pagination): only the
      rows with the requested status when it is 'pending', 'approved' or
      'rejected', every row otherwise, newest first. */
  function ListedOfflinePayments(ps: seq<OfflinePayment>, status: string): seq<OfflinePayment>
    reads ps
  {
    SortNewestFirst(if status in {Pending, Approved, Rejected} then WithStatus(ps, status) else ps)
  }

  /** What the listing holds: newest first, and exactly the rows of the
      requested status, or every row when the status is not one of the
      three. */
  lemma ListedOfflinePaymentsAre(ps: seq<OfflinePayment>, status: string)
    ensures NewestFirst(ListedOfflinePayments(ps, status))
    ensures status in {Pending, Approved, Rejected} ==>
              forall p :: p in ListedOfflinePayments(ps, status) <==> p in ps && p.status == status
    ensures status !in {Pending, Approved, Rejected} ==> multiset(ListedOfflinePayments(ps, status)) == multiset(ps)
    ensures multiset(ListedOfflinePayments(ps, status)) <= multiset(ps)
  {
    var kept := if status in {Pending, Approved, Rejected} then WithStatus(ps, status) else ps;
    var r := SortNewestFirst(kept);
    SortIsNewestFirst(kept);
    SortIsPermutation(kept);
    assert forall p :: p in kept <==> p in multiset(kept);
    assert forall p :: p in r <==> p in multiset(r);
  }

  // ---------------------------------------------------------------------
  // update_user

  const AllowedFields: seq<string> := ["username", "email", "fullName", "role", "has_premium_access"]

  /** `hasattr(user, field)`: the users table has no fullName column. */
  predicate IsUserColumn(f: string) {
    f == "username" || f == "email" || f == "role" || f == "has_premium_access"
  }

  /** The JSON value a column can take; any other makes the commit fail.
      The text columns take a string, an int or a bool, stored as text;
      has_premium_access, a Boolean column, takes a bool or the ints 0
      and 1. Lists and dicts cannot be bound, and NULL fails the NOT NULL
      of username and email (for role and has_premium_access see the
      description of `UpdateUser`). */
  predicate FitsColumn(f: string, v: Json) {
    if f == "has_premium_access" then SqliteBool(v).Some? else SqliteText(v).Some?
  }

  /** The fields `update_user` writes, in the order it visits them: the
      allowed fields that the body has and the model defines. */
  function Present(data: map<string, Json>, fields: seq<string>): (r: seq<string>)
    ensures forall f :: f in r <==> f in fields && f in data && IsUserColumn(f)
    ensures |r| <= |fields|
  {
    if fields == [] then []
    else
      var f := fields[|fields| - 1];
      var init := fields[..|fields| - 1];
      assert fields == init + [f];
      Present(data, init) + (if f in data && IsUserColumn(f) then [f] else [])
  }

  /** The refusal the uniqueness checks give for one field: a new email or
      username that the first user found with it holds under another id. A
      value is compared as the text the column would hold for it (an int
      5 finds the email '5'); NULL, a list or a dict matches nobody. */
  function Conflict(users: UserTable, userId: int, u: User, f: string, v: Json): (c: Option<string>)
    reads users, users.users, u
    ensures c.Some? ==> SqliteText(v).Some? && (f == "email" || f == "username")
    ensures f == "email" && SqliteText(v).Some? && v != JStr(u.email) ==>
              var t := SqliteText(v).value;
              (c.Some? <==> users.ByEmail(t).Some? && users.ByEmail(t).value.id != userId)
    ensures f == "username" && SqliteText(v).Some? && v != JStr(u.username) ==>
              var t := SqliteText(v).value;
              (c.Some? <==> users.ByUsername(t).Some? && users.ByUsername(t).value.id != userId)
  {
    if f == "email" && v != JStr(u.email) && SqliteText(v).Some? then
      match users.ByEmail(SqliteText(v).value)
      case Some(other) => if other.id != userId then Some("Email already exists") else None
      case None => None
    else if f == "username" && v != JStr(u.username) && SqliteText(v).Some? then
      match users.ByUsername(SqliteText(v).value)
      case Some(other) => if other.id != userId then Some("Username already exists") else None
      case None => None
    else None
  }

  /** The refusal of the first field, in visiting order, that has one. */
  function FirstConflict(users: UserTable, userId: int, u: User, data: map<string, Json>, fields: seq<string>): Option<string>
    reads users, users.users, u
  {
    if fields == [] then None
    else if fields[0] in data && IsUserColumn(fields[0]) && Conflict(users, userId, u, fields[0], data[fields[0]]).Some? then
      Conflict(users, userId, u, fields[0], data[fields[0]])
    else FirstConflict(users, userId, u, data, fields[1..])
  }

  /** `", ".join(fields)`. */
  function JoinFields(fs: seq<string>): string {
    if fs == [] then ""
    else if |fs| == 1 then fs[0]
    else fs[0] + ", " + JoinFields(fs[1..])
  }

  /** A text column's value after `update_user`, given the fields it
      writes: the text stored for the value. */
  function NewText(data: map<string, Json>, fs: seq<string>, f: string, current: string): string {
    if f in fs && f in data && SqliteText(data[f]).Some? then SqliteText(data[f]).value else current
  }

  /** The premium flag after `update_user`. */
  function NewFlag(data: map<string, Json>, fs: seq<string>, current: bool): bool {
    if "has_premium_access" in fs && "has_premium_access" in data && SqliteBool(data["has_premium_access"]).Some? then
      SqliteBool(data["has_premium_access"]).value
    else current
  }

  /** Body `{"fullName": …}` alone writes nothing: "No changes made". */
  lemma FullNameIsNeverWritten(data: map<string, Json>)
    ensures "fullName" !in Present(data, AllowedFields)
    ensures Present(data, AllowedFields) == [] <==>
              "username" !in data && "email" !in data && "role" !in data && "has_premium_access" !in data
  {
    var fs := Present(data, AllowedFields);
    if fs != [] { assert fs[0] in fs; }
  }

  /** `update_user`: a missing user and an empty body are refused; the
      loop visits the allowed fields in order and refuses the first new
      email, then username, another user holds; with no field to write it
      answers "No changes made"; otherwise it writes every present field
      and commits, which fails for a value of the wrong type. */
  method UpdateUser(users: UserTable, userId: int, data: map<string, Json>) returns (r: Result<map<string, Json>>)
    requires users.Valid()
    modifies users.users
    ensures users.Valid() && users.users == old(users.users)
    ensures old(users.Get(userId)).None? ==> r == Err("Failed to update user: User not found")
    ensures old(users.Get(userId)).Some? && |data| == 0 ==> r == Err("Failed to update user: No data provided")
    ensures old(users.Get(userId)).Some? && |data| > 0 ==>
      var u, fs := old(users.Get(userId)).value, Present(data, AllowedFields);
      var conflict := old(FirstConflict(users, userId, u, data, AllowedFields));
      var fits := forall k :: 0 <= k < |fs| ==> FitsColumn(fs[k], data[fs[k]]);
      && (conflict.Some? ==> r == Err("Failed to update user: " + conflict.value))
      && (conflict.None? && fs == [] ==> r == Ok(Reply("No changes made", "user", u.ToDict())))
      && (conflict.None? && fs != [] && !fits ==> r == Err(Failure("Failed to update user")))
      && (r.Ok? <==> conflict.None? && (fs == [] || fits))
      && (r.Ok? ==> && u.username == NewText(data, fs, "username", old(u.username))
                    && u.email == NewText(data, fs, "email", old(u.email))
                    && u.role == NewText(data, fs, "role", old(u.role))
                    && u.hasPremiumAccess == NewFlag(data, fs, old(u.hasPremiumAccess))
                    && u.isAdmin == old(u.isAdmin) && u.passwordHash == old(u.passwordHash)
                    && u.premiumSince == old(u.premiumSince) && u.googleId == old(u.googleId)
                    && (forall v :: v in users.users && v != u ==> unchanged(v)))
      && (r.Ok? && fs != [] ==>
            r.value == Reply("User updated successfully. Updated fields: " + JoinFields(fs), "user", u.ToDict()))
    ensures r.Err? ==> forall v :: v in users.users ==> unchanged(v)
  {
    var found := users.Get(userId);
    if found.None? {
      return Err("Failed to update user: User not found");
    }
    var u := found.value;
    if |data| == 0 {
      return Err("Failed to update user: No data provided");
    }
    var conflict, updated := ScanFields(users, userId, u, data, AllowedFields);
    if conflict.Some? {
      return Err("Failed to update user: " + conflict.value);
    }
    assert "email" in AllowedFields;
    r := FinishUpdate(users, userId, u, data, updated);
  }

  /** `update_user` after a loop that refused nothing: "No changes made"
      without a field to write, a failed commit for a value of the wrong
      type, the written fields otherwise. */
  method FinishUpdate(users: UserTable, userId: int, u: User, data: map<string, Json>, fs: seq<string>)
    returns (r: Result<map<string, Json>>)
    requires users.Valid() && u in users.users && u.id == userId
    requires "email" in data ==> Conflict(users, userId, u, "email", data["email"]).None?
    requires forall f :: f in fs ==> f in data
    modifies u
    ensures users.Valid()
    ensures fs == [] ==> r == Ok(Reply("No changes made", "user", u.ToDict()))
    ensures fs != [] && !(forall k :: 0 <= k < |fs| ==> FitsColumn(fs[k], data[fs[k]])) ==>
              r == Err(Failure("Failed to update user"))
    ensures r.Ok? <==> fs == [] || forall k :: 0 <= k < |fs| ==> FitsColumn(fs[k], data[fs[k]])
    ensures r.Err? ==> unchanged(u)
    ensures r.Ok? ==> && u.username == NewText(data, fs, "username", old(u.username))
                      && u.email == NewText(data, fs, "email", old(u.email))
                      && u.role == NewText(data, fs, "role", old(u.role))
                      && u.hasPremiumAccess == NewFlag(data, fs, old(u.hasPremiumAccess))
                      && u.isAdmin == old(u.isAdmin) && u.passwordHash == old(u.passwordHash)
                      && u.premiumSince == old(u.premiumSince) && u.googleId == old(u.googleId)
    ensures r.Ok? && fs != [] ==>
              r.value == Reply("User updated successfully. Updated fields: " + JoinFields(fs), "user", u.ToDict())
  {
    if fs == [] {
      return Ok(Reply("No changes made", "user", u.ToDict()));
    }
    var fits := forall k :: 0 <= k < |fs| ==> FitsColumn(fs[k], data[fs[k]]);
    if !fits {
      return Err(Failure("Failed to update user"));
    }
    CheckedEmailIsFree(users, userId, u, data, fs);
    WriteFields(users, u, data, fs);
    r := Ok(Reply("User updated successfully. Updated fields: " + JoinFields(fs), "user", u.ToDict()));
  }

  /** The loop of `update_user` over the allowed fields: the first
      refusal of a uniqueness check, or none and the fields it will write. */
  method ScanFields(users: UserTable, userId: int, u: User, data: map<string, Json>, fields: seq<string>)
    returns (conflict: Option<string>, updated: seq<string>)
    ensures conflict == FirstConflict(users, userId, u, data, fields)
    ensures conflict.None? ==> updated == Present(data, fields)
    ensures conflict.None? ==> forall f :: f in fields && f in data && IsUserColumn(f) ==>
                                 Conflict(users, userId, u, f, data[f]).None?
  {
    updated := [];
    var i := 0;
    while i < |fields|
      invariant 0 <= i <= |fields|
      invariant updated == Present(data, fields[..i])
      invariant FirstConflict(users, userId, u, data, fields) == FirstConflict(users, userId, u, data, fields[i..])
    {
      var field := fields[i];
      ScanStep(users, userId, u, data, fields, i);
      if field in data && IsUserColumn(field) {
        var c := Conflict(users, userId, u, field, data[field]);
        if c.Some? {
          return c, updated;
        }
        updated := updated + [field];
      }
      i := i + 1;
    }
    assert fields[..i] == fields;
    NoFirstConflict(users, userId, u, data, fields);
    conflict := None;
  }

  /** One field of the scan: what it adds to the written fields, and where
      the first refusal is looked for next. */
  lemma ScanStep(users: UserTable, userId: int, u: User, data: map<string, Json>, fields: seq<string>, i: int)
    requires 0 <= i < |fields|
    ensures Present(data, fields[..i + 1]) ==
              Present(data, fields[..i]) + (if fields[i] in data && IsUserColumn(fields[i]) then [fields[i]] else [])
    ensures FirstConflict(users, userId, u, data, fields[i..]) ==
              if fields[i] in data && IsUserColumn(fields[i]) && Conflict(users, userId, u, fields[i], data[fields[i]]).Some?
              then Conflict(users, userId, u, fields[i], data[fields[i]])
              else FirstConflict(users, userId, u, data, fields[i + 1..])
  {
    assert fields[..i + 1][..i] == fields[..i];
    assert fields[i..][0] == fields[i] && fields[i..][1..] == fields[i + 1..];
  }

  /** No first refusal means no allowed field present in the body is refused. */
  lemma {:induction false} NoFirstConflict(users: UserTable, userId: int, u: User, data: map<string, Json>, fields: seq<string>)
    requires FirstConflict(users, userId, u, data, fields).None?
    ensures forall f :: f in fields && f in data && IsUserColumn(f) ==> Conflict(users, userId, u, f, data[f]).None?
    decreases |fields|
  {
    if fields != [] {
      NoFirstConflict(users, userId, u, data, fields[1..]);
      assert forall f :: f in fields ==> f == fields[0] || f in fields[1..];
    }
  }

  /** A new email that passed the check belongs to no user. */
  lemma CheckedEmailIsFree(users: UserTable, userId: int, u: User, data: map<string, Json>, fs: seq<string>)
    requires users.Valid() && u in users.users && u.id == userId
    requires "email" in data ==> Conflict(users, userId, u, "email", data["email"]).None?
    ensures NewText(data, fs, "email", u.email) != u.email ==> users.ByEmail(NewText(data, fs, "email", u.email)).None?
  {
    var e := NewText(data, fs, "email", u.email);
    if e != u.email && users.ByEmail(e).Some? {
      OtherEmailOtherId(users, u, users.ByEmail(e).value);
    }
  }

  /** Users with different emails have different ids in a valid table. */
  lemma OtherEmailOtherId(users: UserTable, u: User, v: User)
    requires users.Valid() && u in users.users && v in users.users && u.email != v.email
    ensures u.id != v.id
  {
    if u.id == v.id {
      IdsUnique(users, u, v);
    }
  }

  /** The `setattr` calls of the loop, on a user of the table. */
  method WriteFields(users: UserTable, u: User, data: map<string, Json>, fs: seq<string>)
    requires users.Valid() && u in users.users
    requires NewText(data, fs, "email", u.email) != u.email ==> users.ByEmail(NewText(data, fs, "email", u.email)).None?
    modifies u
    ensures users.Valid()
    ensures u.username == NewText(data, fs, "username", old(u.username))
    ensures u.email == NewText(data, fs, "email", old(u.email))
    ensures u.role == NewText(data, fs, "role", old(u.role))
    ensures u.hasPremiumAccess == NewFlag(data, fs, old(u.hasPremiumAccess))
    ensures u.id == old(u.id) && u.isAdmin == old(u.isAdmin) && u.passwordHash == old(u.passwordHash)
    ensures u.premiumSince == old(u.premiumSince) && u.googleId == old(u.googleId)
    ensures u.avatarUrl == old(u.avatarUrl) && u.createdAt == old(u.createdAt)
  {
    var email := NewText(data, fs, "email", u.email);
    if email != u.email {
      users.SetEmail(u, email);
    }
    users.SetUsername(u, NewText(data, fs, "username", u.username));
    users.SetRole(u, NewText(data, fs, "role", u.role));
    users.SetPremiumFlag(u, NewFlag(data, fs, u.hasPremiumAccess));
  }
}
