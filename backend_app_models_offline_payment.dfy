/** backend/app/models/offline_payment.py: a request to pay for premium
    access outside Stripe, which an administrator approves or rejects.
    Columns filled from a request body keep the body's JSON value; the
    `user` and `admin` relationships are object references (null when the
    row has none). Timestamps are whole seconds. */
module AppOfflinePayment {
  import opened Common
  import opened AppUserModel

  const Pending := "pending"
  const Approved := "approved"
  const Rejected := "rejected"

  class OfflinePayment {
    var id: int
    var userId: int
    var amount: Json
    var currency: string
    var description: Json
    var adminId: int
    var status: string
    var paymentMethod: Json
    var referenceNumber: Json
    /** JNull when no note is stored. */
    var notes: Json
    var createdAt: Option<int>
    var approvedAt: Option<int>
    var user: User?
    var admin: User?

    /** A new row with the column defaults: currency 'PLN', no notes, not
        yet approved; the status is the one given. */
    constructor (id: int, userId: int, amount: Json, description: Json, adminId: int, status: string,
                 paymentMethod: Json, referenceNumber: Json, now: int, user: User?, admin: User?)
      ensures this.id == id && this.userId == userId && this.amount == amount
      ensures this.description == description && this.adminId == adminId && this.status == status
      ensures this.paymentMethod == paymentMethod && this.referenceNumber == referenceNumber
      ensures currency == "PLN" && notes == JNull && createdAt == Some(now) && approvedAt == None
      ensures this.user == user && this.admin == admin
    {
      this.id := id;
      this.userId := userId;
      this.amount := amount;
      currency := "PLN";
      this.description := description;
      this.adminId := adminId;
      this.status := status;
      this.paymentMethod := paymentMethod;
      this.referenceNumber := referenceNumber;
      notes := JNull;
      createdAt := Some(now);
      approvedAt := None;
      this.user := user;
      this.admin := admin;
    }

    /** `approve_payment`: whatever the current status, the payment becomes
        'approved' at `now`, a truthy note replaces the stored one, and the
        payer gets premium access with premium_since `now`. Without a payer
        the premium step raises (`ok` false) after the payment's own
        columns have been set. */
    method ApprovePayment(adminNotes: Json, now: int) returns (ok: bool)
      modifies this, user
      ensures ok <==> user != null
      ensures status == Approved && approvedAt == Some(now)
      ensures notes == if PyTruthy(adminNotes) then adminNotes else old(notes)
      ensures user == old(user) && admin == old(admin) && id == old(id) && userId == old(userId)
      ensures amount == old(amount) && currency == old(currency) && description == old(description)
      ensures adminId == old(adminId) && createdAt == old(createdAt)
      ensures paymentMethod == old(paymentMethod) && referenceNumber == old(referenceNumber)
      ensures user != null ==> && user.hasPremiumAccess && user.premiumSince == Some(now)
                               && user.id == old(user.id) && user.email == old(user.email)
                               && user.username == old(user.username) && user.role == old(user.role)
                               && user.isAdmin == old(user.isAdmin) && user.googleId == old(user.googleId)
                               && user.passwordHash == old(user.passwordHash)
    {
      status := Approved;
      approvedAt := Some(now);
      if PyTruthy(adminNotes) {
        notes := adminNotes;
      }
      if user == null {
        return false;
      }
      user.hasPremiumAccess := true;
      user.premiumSince := Some(now);
      ok := true;
    }

    /** `reject_payment`: whatever the current status, the payment becomes
        'rejected' and a truthy note replaces the stored one; the payer is
        not touched. */
    method RejectPayment(adminNotes: Json)
      modifies this
      ensures status == Rejected
      ensures notes == if PyTruthy(adminNotes) then adminNotes else old(notes)
      ensures user == old(user) && admin == old(admin) && id == old(id) && userId == old(userId)
      ensures amount == old(amount) && currency == old(currency) && description == old(description)
      ensures adminId == old(adminId) && createdAt == old(createdAt) && approvedAt == old(approvedAt)
      ensures paymentMethod == old(paymentMethod) && referenceNumber == old(referenceNumber)
    {
      status := Rejected;
      if PyTruthy(adminNotes) {
        notes := adminNotes;
      }
    }

    /** `to_dict`: the columns, with the payer's email and name and the
        administrator's name, each None when the relationship is empty.
        Dates are the stored timestamps (isoformat is not modelled). */
    function ToDict(): (d: map<string, Json>)
      reads this, user, admin
      ensures d.Keys == {"id", "user_id", "user_email", "user_name", "amount", "currency", "description",
                         "admin_id", "admin_name", "status", "payment_method", "reference_number",
                         "notes", "created_at", "approved_at"}
    {
      map["id" := JInt(id), "user_id" := JInt(userId),
          "user_email" := if user != null then JStr(user.email) else JNull,
          "user_name" := if user != null then JStr(user.username) else JNull,
          "amount" := amount, "currency" := JStr(currency), "description" := description,
          "admin_id" := JInt(adminId),
          "admin_name" := if admin != null then JStr(admin.username) else JNull,
          "status" := JStr(status), "payment_method" := paymentMethod,
          "reference_number" := referenceNumber, "notes" := notes,
          "created_at" := TimeOrNull(createdAt), "approved_at" := TimeOrNull(approvedAt)]
    }
  }

  /** The payer and administrator columns of `to_dict` are None exactly
      when the relationship is empty; the others show the row. */
  lemma ToDictColumns(p: OfflinePayment)
    ensures var d := p.ToDict();
      && (d["user_email"] == JNull <==> p.user == null) && (d["user_name"] == JNull <==> p.user == null)
      && (p.user != null ==> d["user_email"] == JStr(p.user.email) && d["user_name"] == JStr(p.user.username))
      && (d["admin_name"] == JNull <==> p.admin == null)
      && d["status"] == JStr(p.status) && d["notes"] == p.notes && d["amount"] == p.amount
      && (d["approved_at"] == JNull <==> p.approvedAt.None?)
  {
  }

  function TimeOrNull(t: Option<int>): Json {
    match t
    case None => JNull
    case Some(s) => JInt(s)
  }

  /** The first row with the id, and the first pending row of a user. */
  function FirstOfflineWithId(ps: seq<OfflinePayment>, id: int): (r: Option<OfflinePayment>)
    reads ps
    ensures r.Some? ==> r.value in ps && r.value.id == id
    ensures r.None? <==> forall p :: p in ps ==> p.id != id
  {
    if ps == [] then None
    else if ps[0].id == id then Some(ps[0])
    else FirstOfflineWithId(ps[1..], id)
  }

  function FirstPendingOf(ps: seq<OfflinePayment>, userId: int): (r: Option<OfflinePayment>)
    reads ps
    ensures r.Some? ==> r.value in ps && r.value.userId == userId && r.value.status == Pending
    ensures r.None? <==> forall p :: p in ps ==> !(p.userId == userId && p.status == Pending)
  {
    if ps == [] then None
    else if ps[0].userId == userId && ps[0].status == Pending then Some(ps[0])
    else FirstPendingOf(ps[1..], userId)
  }

  function MaxOfflineId(ps: seq<OfflinePayment>): (m: int)
    reads ps
    ensures m >= 0 && forall p :: p in ps ==> p.id <= m
  {
    if ps == [] then 0
    else var rest := MaxOfflineId(ps[1..]); if ps[0].id > rest then ps[0].id else rest
  }

  /** The `offline_payments` table. */
  class OfflinePaymentTable {
    var payments: seq<OfflinePayment>

    ghost predicate Valid()
      reads this, payments
    {
      && (forall i, j :: 0 <= i < j < |payments| ==> payments[i] != payments[j])
      && (forall i, j :: 0 <= i < j < |payments| ==> payments[i].id != payments[j].id)
    }

    constructor ()
      ensures payments == [] && Valid()
    {
      payments := [];
    }

    function Get(id: int): (r: Option<OfflinePayment>)
      reads this, payments
      ensures r.Some? ==> r.value in payments && r.value.id == id
      ensures r.None? <==> forall p :: p in payments ==> p.id != id
    {
      FirstOfflineWithId(payments, id)
    }

    /** `filter_by(user_id=…, status='pending').first()`. */
    function PendingOf(userId: int): (r: Option<OfflinePayment>)
      reads this, payments
      ensures r.Some? ==> r.value in payments && r.value.userId == userId && r.value.status == Pending
      ensures r.None? <==> forall p :: p in payments ==> !(p.userId == userId && p.status == Pending)
    {
      FirstPendingOf(payments, userId)
    }

    function NextId(): (id: int)
      reads this, payments
      ensures id >= 1 && forall p :: p in payments ==> p.id < id
    {
      MaxOfflineId(payments) + 1
    }

    /** Adds a row with the next id. */
    method Add(userId: int, amount: Json, description: Json, adminId: int, status: string,
               paymentMethod: Json, referenceNumber: Json, now: int, user: User?, admin: User?)
      returns (p: OfflinePayment)
      requires Valid()
      modifies this
      ensures Valid() && fresh(p) && payments == old(payments) + [p]
      ensures p.id == old(NextId()) && p.userId == userId && p.amount == amount && p.status == status
      ensures p.description == description && p.adminId == adminId && p.paymentMethod == paymentMethod
      ensures p.referenceNumber == referenceNumber && p.currency == "PLN" && p.notes == JNull
      ensures p.createdAt == Some(now) && p.approvedAt == None && p.user == user && p.admin == admin
    {
      var id := NextId();
      p := new OfflinePayment(id, userId, amount, description, adminId, status, paymentMethod,
                              referenceNumber, now, user, admin);
      payments := payments + [p];
    }
  }
}
