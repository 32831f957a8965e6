/** backend/app/stripe_controller.py: `StripeController.handle_webhook`.
    The environment (the webhook secret and whether the app runs in
    development), the parsed payload and the verdict of
    `stripe.Webhook.construct_event` on the signature are parameters. A
    write that fails before the commit leaves the tables as they were. */
module AppStripeController {
  import opened Common
  import opened AppUserModel
  import opened AppPayment
  import opened AppModelHelpers

  const Success := Response(200, map["status" := JStr("success")])
  const ProcessingError := ErrorReply(500, "Webhook processing error")
  /** An error raised before `event_type` is bound: the except clause's
      own log line then raises, and Flask answers with a bare 500. */
  const Unhandled := Response(500, map[])
  const BadSignature := ErrorReply(400, "Invalid payload or signature")
  const Misconfigured := ErrorReply(500, "Webhook secret not properly configured")

  const Canceled := "canceled"

  // ---------------------------------------------------------------------
  // The signature check

  /** No secret, an empty one, or a test secret. */
  predicate TestSecret(secret: Option<string>) {
    secret.None? || secret.value == "" || StartsWith(secret.value, "whsec_test_")
  }

  datatype Verdict = Event(event: Json) | Refused(resp: Response)

  /** With a test secret the payload is taken unchecked in development and
      refused with 500 otherwise; with a real secret it needs a valid
      signature. A payload that is not JSON is refused with 400. */
  function VerifyEvent(secret: Option<string>, isDevelopment: bool, payload: Option<Json>,
                       signatureValid: bool): (v: Verdict)
    ensures v.Event? <==> payload.Some? && (if TestSecret(secret) then isDevelopment else signatureValid)
    ensures v.Event? ==> payload == Some(v.event)
    ensures v.Refused? ==> v.resp == Misconfigured || v.resp == BadSignature
    ensures v == Refused(Misconfigured) <==> TestSecret(secret) && !isDevelopment
  {
    if TestSecret(secret) then
      if !isDevelopment then Refused(Misconfigured)
      else if payload.None? then Refused(BadSignature)
      else Event(payload.value)
    else if payload.None? || !signatureValid then Refused(BadSignature)
    else Event(payload.value)
  }

  /** The signature is skipped only in development with a test secret. */
  lemma UncheckedOnlyInDevelopment(secret: Option<string>, isDevelopment: bool, payload: Option<Json>)
    requires VerifyEvent(secret, isDevelopment, payload, false).Event?
    ensures isDevelopment && TestSecret(secret)
  {
  }

  // ---------------------------------------------------------------------
  // Dispatch on the event type

  datatype Route = NoType | Checkout(session: Json) | Deleted(obj: Json) | Updated(obj: Json)
                 | InvoiceFailed(obj: Json) | Ignored | NoObject

  /** `event['data']['object']`, None when a subscript raises. */
  function DataObject(event: map<string, Json>): (r: Option<Json>)
    ensures r.Some? <==> "data" in event && event["data"].JObj? && "object" in event["data"].fields
    ensures r.Some? ==> r.value == event["data"].fields["object"]
  {
    if "data" in event && event["data"].JObj? && "object" in event["data"].fields
    then Some(event["data"].fields["object"])
    else None
  }

  /** The branch `handle_webhook` takes: NoType when `event['type']`
      raises, NoObject when `event['data']['object']` does, Ignored for a
      type the handler does not know. */
  function Dispatch(event: Json): (r: Route)
    ensures r.NoType? <==> !(event.JObj? && "type" in event.fields)
    ensures !r.NoType? && !r.Ignored? ==>
              var t := event.fields["type"];
              t in {JStr("checkout.session.completed"), JStr("customer.subscription.deleted"),
                    JStr("customer.subscription.updated"), JStr("invoice.payment_failed")}
    ensures r.Checkout? ==> event.fields["type"] == JStr("checkout.session.completed")
                            && DataObject(event.fields) == Some(r.session)
    ensures r.Deleted? ==> event.fields["type"] == JStr("customer.subscription.deleted")
                           && DataObject(event.fields) == Some(r.obj)
    ensures r.Updated? ==> event.fields["type"] == JStr("customer.subscription.updated")
                           && DataObject(event.fields) == Some(r.obj)
    ensures r.InvoiceFailed? ==> event.fields["type"] == JStr("invoice.payment_failed")
                                 && DataObject(event.fields) == Some(r.obj)
    ensures r.NoObject? ==> DataObject(event.fields).None?
  {
    if !(event.JObj? && "type" in event.fields) then NoType
    else
      var t := event.fields["type"];
      var obj := DataObject(event.fields);
      if t == JStr("checkout.session.completed") then (if obj.Some? then Checkout(obj.value) else NoObject)
      else if t == JStr("customer.subscription.deleted") then (if obj.Some? then Deleted(obj.value) else NoObject)
      else if t == JStr("customer.subscription.updated") then (if obj.Some? then Updated(obj.value) else NoObject)
      else if t == JStr("invoice.payment_failed") then (if obj.Some? then InvoiceFailed(obj.value) else NoObject)
      else Ignored
  }

  /** An event of another type is answered with success whatever its data. */
  lemma OtherTypesIgnored(event: map<string, Json>, t: string)
    requires "type" in event && event["type"] == JStr(t)
    requires t !in {"checkout.session.completed", "customer.subscription.deleted",
                    "customer.subscription.updated", "invoice.payment_failed"}
    ensures Dispatch(JObj(event)) == Ignored
  {
  }

  // ---------------------------------------------------------------------
  // checkout.session.completed

  /** What the checkout branch does with a session: raise, activate the
      user with an integer `client_reference_id`, fall back to the
      customer's email, or only log. */
  datatype Plan = Crash | ById(id: int) | ByEmail(email: Json) | Skip

  /** `session.get('client_reference_id')` and
      `session.get('customer_details', {}).get('email')`, then
      `session['id']` for the log line. */
  function CheckoutPlan(session: Json): (p: Plan)
    ensures p.Crash? <==>
              || !session.JObj?
              || !GetOr(session.fields, "customer_details", JObj(map[])).JObj?
              || "id" !in session.fields
              || (PyTruthy(GetOr(session.fields, "client_reference_id", JNull))
                  && PyIntOf(GetOr(session.fields, "client_reference_id", JNull)).TypeError?)
    ensures p.ById? <==> !p.Crash? && PyTruthy(GetOr(session.fields, "client_reference_id", JNull))
                         && PyIntOf(GetOr(session.fields, "client_reference_id", JNull)).IntOk?
    ensures p.ById? ==> PyIntOf(GetOr(session.fields, "client_reference_id", JNull)) == IntOk(p.id)
    ensures p.ByEmail? ==> PyTruthy(p.email)
                           && p.email == GetOr(GetOr(session.fields, "customer_details", JObj(map[])).fields, "email", JNull)
    ensures p.Skip? ==> !PyTruthy(GetOr(GetOr(session.fields, "customer_details", JObj(map[])).fields, "email", JNull))
  {
    if !session.JObj? then Crash
    else
      var ref := GetOr(session.fields, "client_reference_id", JNull);
      var details := GetOr(session.fields, "customer_details", JObj(map[]));
      if !details.JObj? then Crash
      else
        var email := GetOr(details.fields, "email", JNull);
        if "id" !in session.fields then Crash
        else if PyTruthy(ref) then
          match PyIntOf(ref)
          case IntOk(n) => ById(n)
          case ValueError => if PyTruthy(email) then ByEmail(email) else Skip
          case TypeError => Crash
        else if PyTruthy(email) then ByEmail(email)
        else Skip
  }

  /** A reference that is not an integer falls back to the email, as a
      missing reference does. */
  lemma EmailFallback(session: map<string, Json>, ref: string, email: Json)
    requires "id" in session && "client_reference_id" in session && session["client_reference_id"] == JStr(ref)
    requires ref != "" && ParsePyInt(ref).None?
    requires "customer_details" in session && session["customer_details"].JObj?
    requires "email" in session["customer_details"].fields && session["customer_details"].fields["email"] == email
    requires PyTruthy(email)
    ensures CheckoutPlan(JObj(session)) == ByEmail(email)
  {
  }

  /** The checkout branch. By id: a missing user is only logged; otherwise
      the upsert and the premium grant commit together, or the commit fails
      on a Stripe id another row holds and the answer is 500. By email:
      `_process_subscription_by_email`. */
  method CheckoutCompleted(users: UserTable, subs: SubscriptionTable, session: Json, now: int)
    returns (resp: Response)
    requires users.Valid() && subs.Valid()
    modifies subs, subs.subs, users.users
    ensures users.Valid() && subs.Valid() && users.users == old(users.users)
    ensures resp == Success || resp == ProcessingError
    ensures resp == ProcessingError ==>
              subs.subs == old(subs.subs) && (forall t :: t in subs.subs ==> unchanged(t))
              && forall v :: v in users.users ==> unchanged(v)
    ensures CheckoutPlan(session).Crash? ==> resp == ProcessingError
    ensures CheckoutPlan(session).Skip? ==>
              resp == Success && subs.subs == old(subs.subs) && (forall t :: t in subs.subs ==> unchanged(t))
              && forall v :: v in users.users ==> unchanged(v)
    ensures CheckoutPlan(session).ById? && old(users.Get(CheckoutPlan(session).id)).None? ==>
              resp == Success && subs.subs == old(subs.subs) && (forall t :: t in subs.subs ==> unchanged(t))
              && forall v :: v in users.users ==> unchanged(v)
    ensures CheckoutPlan(session).ById? && old(users.Get(CheckoutPlan(session).id)).Some? ==>
              var u := old(users.Get(CheckoutPlan(session).id)).value;
              var fields := session.fields;
              && (resp == Success <==>
                    !old(StripeIdsTaken(subs.subs, Existing(subs, u), SessionCustomer(fields), SessionSubscription(fields))))
              && (resp == Success ==>
                    && u.hasPremiumAccess
                    && u.premiumSince == (if old(u.premiumSince).None? then Some(now) else old(u.premiumSince))
                    && (exists s :: s in subs.subs && ActiveFrom(s, u.id, fields, now))
                    && (old(Existing(subs, u)) != null ==> subs.subs == old(subs.subs))
                    && (old(Existing(subs, u)) == null ==> |subs.subs| == |old(subs.subs)| + 1))
    ensures CheckoutPlan(session).ByEmail? && old(EmailOwner(users, CheckoutPlan(session).email)).None? ==>
              resp == ProcessingError
    ensures CheckoutPlan(session).ByEmail? && old(EmailOwner(users, CheckoutPlan(session).email)) == Some(None) ==>
              resp == Success && subs.subs == old(subs.subs) && (forall t :: t in subs.subs ==> unchanged(t))
              && forall v :: v in users.users ==> unchanged(v)
    ensures CheckoutPlan(session).ByEmail? && old(EmailOwner(users, CheckoutPlan(session).email)).Some?
            && old(EmailOwner(users, CheckoutPlan(session).email)).value.Some? ==>
              var u := old(EmailOwner(users, CheckoutPlan(session).email)).value.value;
              var fields := session.fields;
              && (resp == Success <==>
                    !old(StripeIdsTaken(subs.subs, Existing(subs, u), SessionCustomer(fields), SessionSubscription(fields))))
              && (resp == Success ==>
                    && u.hasPremiumAccess
                    && u.premiumSince == (if old(u.premiumSince).None? then Some(now) else old(u.premiumSince))
                    && exists s :: s in subs.subs && ActiveFrom(s, u.id, fields, now))
  {
    var plan := CheckoutPlan(session);
    if plan.Crash? {
      return ProcessingError;
    }
    if plan.Skip? {
      return Success;
    }
    if plan.ById? {
      var found := users.Get(plan.id);
      if found.None? {
        return Success;
      }
      var r, s := ActivateForUser(users, subs, found.value, session.fields, now);
      if r.Err? {
        return ProcessingError;
      }
      return Success;
    }
    var r, s := ProcessSubscriptionByEmail(users, subs, plan.email, session.fields, now);
    assert r.Ok? ==> r == Ok(r.value) && (r.value || r == Ok(false));
    resp := if r.Err? then ProcessingError else Success;
  }

  // ---------------------------------------------------------------------
  // customer.subscription.deleted and customer.subscription.updated

  /** `subscription_data['id']` as the query binds it: None when the
      subscript raises or the id cannot be bound (a list or an object);
      otherwise its SQLite text, or None for a null id, which the query
      compares with `IS NULL`. */
  function ObjectId(obj: Json): (r: Option<Option<string>>)
    ensures r.Some? <==> HasId(obj) && !obj.fields["id"].JArr? && !obj.fields["id"].JObj?
    ensures r.Some? ==> r.value == SqliteText(obj.fields["id"])
    ensures HasId(obj) && obj.fields["id"].JNull? ==> r == Some(None)
    ensures HasId(obj) && obj.fields["id"].JBool? ==> r == Some(Some(if obj.fields["id"].b then "1" else "0"))
  {
    if HasId(obj) then TextCell(obj.fields["id"]) else None
  }

  /** The subscript `obj['id']` succeeds. */
  predicate HasId(obj: Json) {
    obj.JObj? && "id" in obj.fields
  }

  /** subscription.deleted: the subscription holding the Stripe id is
      cancelled now and its user loses premium access; an unknown id is
      only logged, and a subscription whose user row is gone raises. */
  method SubscriptionDeleted(users: UserTable, subs: SubscriptionTable, obj: Json, now: int)
    returns (resp: Response)
    requires users.Valid() && subs.Valid()
    modifies subs.subs, users.users
    ensures users.Valid() && subs.Valid() && users.users == old(users.users) && subs.subs == old(subs.subs)
    ensures resp == Success || resp == ProcessingError
    ensures ObjectId(obj).None? ==> resp == ProcessingError
    ensures ObjectId(obj).Some? && old(subs.ByStripeId(ObjectId(obj).value)).None? ==> resp == Success
    ensures resp == ProcessingError || (ObjectId(obj).Some? && old(subs.ByStripeId(ObjectId(obj).value)).None?) ==>
              (forall t :: t in subs.subs ==> unchanged(t)) && forall v :: v in users.users ==> unchanged(v)
    ensures ObjectId(obj).Some? && old(subs.ByStripeId(ObjectId(obj).value)).Some? ==>
              var s := old(subs.ByStripeId(ObjectId(obj).value)).value;
              && (resp == Success <==> old(users.Get(s.userId)).Some?)
              && (resp == Success ==>
                    var u := old(users.Get(s.userId)).value;
                    && s.status == Canceled && s.canceledAt == Some(now) && !u.hasPremiumAccess
                    && s.currentPeriodEnd == old(s.currentPeriodEnd) && s.stripeCustomerId == old(s.stripeCustomerId)
                    && (forall t :: t in subs.subs && t != s ==> unchanged(t))
                    && (forall v :: v in users.users && v != u ==> unchanged(v)))
  {
    var sid := ObjectId(obj);
    if sid.None? {
      return ProcessingError;
    }
    var found := subs.ByStripeId(sid.value);
    if found.None? {
      return Success;
    }
    var s := found.value;
    var owner := users.Get(s.userId);
    if owner.None? {
      return ProcessingError;
    }
    CancelRow(subs, s, now);
    users.RevokePremium(owner.value);
    resp := Success;
  }

  /** The row becomes 'canceled' at `now`; its other columns stay. */
  method CancelRow(subs: SubscriptionTable, s: StripeSubscription, now: int)
    requires subs.Valid() && s in subs.subs
    modifies s
    ensures subs.Valid()
    ensures s.status == Canceled && s.canceledAt == Some(now)
    ensures s.id == old(s.id) && s.userId == old(s.userId) && s.stripeCustomerId == old(s.stripeCustomerId)
    ensures s.stripeSubscriptionId == old(s.stripeSubscriptionId) && s.currentPeriodEnd == old(s.currentPeriodEnd)
    ensures s.currentPeriodStart == old(s.currentPeriodStart) && s.failedPaymentCount == old(s.failedPaymentCount)
  {
    s.status := Canceled;
    s.canceledAt := Some(now);
    subs.KeysUnchanged(s);
  }

  /** `datetime.fromtimestamp(...)` on an integer (a bool counts as 0 or
      1); None when it raises. */
  function Timestamp(j: Json, utcOffset: int): (r: Option<int>)
    ensures j.JInt? ==> r == Some(FromTimestamp(j.n, utcOffset))
    ensures r.Some? <==> j.JInt? || j.JBool?
  {
    if PyNumber(j).Some? then Some(FromTimestamp(PyNumber(j).value, utcOffset)) else None
  }

  /** subscription.updated: a known subscription takes the event's status
      and period end; an unknown id is only logged; a missing status or
      period end raises before the commit. The status column is NOT NULL
      text: an int or bool is stored as its SQLite text, while a null
      fails the commit and a list or dict cannot be bound, and each of
      those is the 500. */
  method SubscriptionUpdated(subs: SubscriptionTable, obj: Json, utcOffset: int) returns (resp: Response)
    requires subs.Valid()
    modifies subs.subs
    ensures subs.Valid() && subs.subs == old(subs.subs)
    ensures resp == Success || resp == ProcessingError
    ensures ObjectId(obj).None? ==> resp == ProcessingError
    ensures ObjectId(obj).Some? && old(subs.ByStripeId(ObjectId(obj).value)).None? ==> resp == Success
    ensures resp == ProcessingError || (ObjectId(obj).Some? && old(subs.ByStripeId(ObjectId(obj).value)).None?) ==>
              forall t :: t in subs.subs ==> unchanged(t)
    ensures ObjectId(obj).Some? && old(subs.ByStripeId(ObjectId(obj).value)).Some? ==>
              var s := old(subs.ByStripeId(ObjectId(obj).value)).value;
              && (resp == Success <==> "status" in obj.fields && "current_period_end" in obj.fields
                                       && Timestamp(obj.fields["current_period_end"], utcOffset).Some?
                                       && SqliteText(obj.fields["status"]).Some?)
              && (resp == Success ==>
                    && s.status == SqliteText(obj.fields["status"]).value
                    && s.currentPeriodEnd == Timestamp(obj.fields["current_period_end"], utcOffset).value
                    && s.canceledAt == old(s.canceledAt) && s.userId == old(s.userId)
                    && forall t :: t in subs.subs && t != s ==> unchanged(t))
  {
    var sid := ObjectId(obj);
    if sid.None? {
      return ProcessingError;
    }
    var found := subs.ByStripeId(sid.value);
    if found.None? {
      return Success;
    }
    if "status" !in obj.fields || "current_period_end" !in obj.fields {
      return ProcessingError;
    }
    var end := Timestamp(obj.fields["current_period_end"], utcOffset);
    if end.None? {
      return ProcessingError;
    }
    var status := SqliteText(obj.fields["status"]);
    if status.None? {
      return ProcessingError;
    }
    var s := found.value;
    s.status := status.value;
    s.currentPeriodEnd := end.value;
    subs.KeysUnchanged(s);
    resp := Success;
  }

  // ---------------------------------------------------------------------
  // handle_webhook

  /** `handle_webhook`: the signature check, then the branch of the event
      type. A failed invoice is only logged once its id is read; an event
      of another type is answered with success. */
  method HandleWebhook(users: UserTable, subs: SubscriptionTable, secret: Option<string>, isDevelopment: bool,
                       payload: Option<Json>, signatureValid: bool, now: int, utcOffset: int)
    returns (resp: Response)
    requires users.Valid() && subs.Valid()
    modifies subs, subs.subs, users.users
    ensures users.Valid() && subs.Valid() && users.users == old(users.users)
    ensures resp.status in {200, 400, 500}
    ensures resp.status == 400 ==> resp == BadSignature
    ensures var v := VerifyEvent(secret, isDevelopment, payload, signatureValid);
      && (v.Refused? ==> resp == v.resp)
      && (v.Event? ==> var route := Dispatch(v.event);
            && (route.NoType? ==> resp == Unhandled)
            && (route.NoObject? ==> resp == ProcessingError)
            && (route.Ignored? ==> resp == Success)
            && (route.InvoiceFailed? ==> resp == if HasId(route.obj) then Success else ProcessingError))
    ensures var v := VerifyEvent(secret, isDevelopment, payload, signatureValid);
      v.Refused? || (v.Event? && (Dispatch(v.event).NoType? || Dispatch(v.event).NoObject?
                                  || Dispatch(v.event).Ignored? || Dispatch(v.event).InvoiceFailed?)) ==>
        subs.subs == old(subs.subs) && (forall t :: t in subs.subs ==> unchanged(t))
        && forall u :: u in users.users ==> unchanged(u)
  {
    var v := VerifyEvent(secret, isDevelopment, payload, signatureValid);
    if v.Refused? {
      return v.resp;
    }
    var route := Dispatch(v.event);
    match route
    case NoType => resp := Unhandled;
    case NoObject => resp := ProcessingError;
    case Ignored => resp := Success;
    case InvoiceFailed(obj) => resp := if HasId(obj) then Success else ProcessingError;
    case Checkout(session) => resp := CheckoutCompleted(users, subs, session, now);
    case Deleted(obj) => resp := SubscriptionDeleted(users, subs, obj, now);
    case Updated(obj) => resp := SubscriptionUpdated(subs, obj, utcOffset);
  }
}
