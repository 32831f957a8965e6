/** backend_v2/app/controllers/stripe_controller.py: the second backend's
    Stripe endpoints. The Stripe API's answers (a retrieved session, the
    verdict of `construct_event`, the list of active subscriptions, the
    outcome of a deletion) are parameters; the clock is `now`. */
module V2StripeController {
  import opened Common
  import opened V2UserModel

  /** A JSON reply: the status, the `success` flag and the message. */
  datatype Reply = Reply(status: int, success: bool, message: string)

  const Activated := "Premium zostało aktywowane"
  const NotPaid := "Płatność nie została zrealizowana"
  const NoSubscription := "Brak aktywnej subskrypcji"
  const Cancelled := "Subskrypcja została anulowana"
  const StripeFailure := "Błąd Stripe"

  // ---------------------------------------------------------------------
  // verify_session

  /** The parts of a checkout session verify_session reads. */
  datatype CheckoutSession = CheckoutSession(paymentStatus: string, metadata: map<string, Json>)

  /** The session is paid and its metadata names the current user, as
      the text `str(current_user.id)`. */
  predicate PaidFor(s: CheckoutSession, userId: int) {
    s.paymentStatus == "paid" && GetOr(s.metadata, "user_id", JNull) == JStr(IntToString(userId))
  }

  /** `verify_session`: a paid session of the current user gives premium
      for 30 days from now; any other session is a 400 and changes
      nothing, as is a failed retrieval. */
  method VerifySession(me: User, session: Result<CheckoutSession>, now: int) returns (reply: Reply)
    modifies me
    ensures reply.success <==> session.Ok? && PaidFor(session.value, old(me.id))
    ensures reply.success ==> reply == Reply(200, true, Activated)
                              && me.isPremium && me.premiumExpiresAt == Some(now + PremiumPeriod)
                              && me.id == old(me.id) && me.stripeCustomerId == old(me.stripeCustomerId)
    ensures !reply.success ==> unchanged(me) && reply.status == 400
    ensures session.Err? ==> reply == Reply(400, false, Failure(StripeFailure))
    ensures session.Ok? && !PaidFor(session.value, old(me.id)) ==> reply == Reply(400, false, NotPaid)
  {
    if session.Err? {
      return Reply(400, false, Failure(StripeFailure));
    }
    if !PaidFor(session.value, me.id) {
      return Reply(400, false, NotPaid);
    }
    me.ActivateFrom(now);
    reply := Reply(200, true, Activated);
  }

  /** A session whose metadata holds the id as a number, not as text, is
      never taken as paid. */
  lemma NumericMetadataRefused(s: CheckoutSession, userId: int)
    requires "user_id" in s.metadata && s.metadata["user_id"].JInt?
    ensures !PaidFor(s, userId)
  {
  }

  // ---------------------------------------------------------------------
  // The webhook handlers

  /** The user `handle_successful_payment` activates: the metadata (an
      object, `{}` when absent) must hold a truthy user_id that int()
      accepts and that is some user's id. Any other case raises or finds
      nobody, and the handler logs and does nothing. */
  function PaymentTarget(us: seq<User>, session: map<string, Json>): (r: Option<User>)
    reads us
    ensures r.Some? ==> r.value in us
    ensures r.None? <==>
              var m := GetOr(session, "metadata", JObj(map[]));
              || !m.JObj?
              || !PyTruthy(GetOr(m.fields, "user_id", JNull))
              || !PyIntOf(GetOr(m.fields, "user_id", JNull)).IntOk?
              || FirstWithId(us, PyIntOf(GetOr(m.fields, "user_id", JNull)).n).None?
    ensures r.Some? ==> var m := GetOr(session, "metadata", JObj(map[]));
              m.JObj? && r == FirstWithId(us, PyIntOf(GetOr(m.fields, "user_id", JNull)).n)
  {
    var m := GetOr(session, "metadata", JObj(map[]));
    if !m.JObj? then None
    else
      var id := GetOr(m.fields, "user_id", JNull);
      if !PyTruthy(id) then None
      else match PyIntOf(id)
        case IntOk(n) => FirstWithId(us, n)
        case _ => None
  }

  /** `handle_successful_payment`: the target user gets premium until 30
      days from now, even if a later expiry was stored; every other user,
      and everyone when there is no target, stays as they were. */
  method HandleSuccessfulPayment(users: UserTable, session: map<string, Json>, now: int)
    requires users.Valid()
    modifies users.users
    ensures users.Valid()
    ensures PaymentTarget(users.users, session).None? ==> forall u :: u in users.users ==> unchanged(u)
    ensures old(PaymentTarget(users.users, session)).Some? ==>
              var t := old(PaymentTarget(users.users, session)).value;
              && t.isPremium && t.premiumExpiresAt == Some(now + PremiumPeriod)
              && t.id == old(t.id) && t.stripeCustomerId == old(t.stripeCustomerId)
              && forall u :: u in users.users && u != t ==> unchanged(u)
  {
    var t := PaymentTarget(users.users, session);
    if t.Some? {
      t.value.ActivateFrom(now);
    }
  }

  /** The customer id a value of `invoice['customer']` selects users by:
      a string names one and None selects the users without one. Stripe
      sends the customer as its id text or null, so no other value is
      modelled; one selects nobody here (outer None). */
  function CustomerKey(j: Json): Option<Option<string>> {
    match j
    case JStr(s) => Some(Some(s))
    case JNull => Some(None)
    case _ => None
  }

  /** The user an invoice or subscription event is about: the first one
      with the event's customer id. */
  function CustomerTarget(us: seq<User>, obj: map<string, Json>): (r: Option<User>)
    reads us
    ensures r.Some? ==> r.value in us && "customer" in obj && CustomerKey(obj["customer"]).Some?
                        && r.value.stripeCustomerId == CustomerKey(obj["customer"]).value
  {
    if "customer" !in obj then None
    else match CustomerKey(obj["customer"])
      case None => None
      case Some(c) => FirstWithCustomer(us, c)
  }

  /** The expiry after a renewal: 30 days past a stored expiry that is
      still in the future, otherwise 30 days from now. */
  function Renewed(expires: Option<int>, now: int): int {
    if expires.Some? && expires.value > now then expires.value + PremiumPeriod else now + PremiumPeriod
  }

  /** A renewal adds exactly 30 days to a future expiry, restarts a past
      or missing one, and always leaves at least 30 days from now. */
  lemma RenewalAtLeastPeriod(expires: Option<int>, now: int)
    ensures Renewed(expires, now) >= now + PremiumPeriod
    ensures expires.Some? && expires.value > now ==> Renewed(expires, now) - expires.value == PremiumPeriod
    ensures expires.None? || expires.value <= now ==> Renewed(expires, now) == now + PremiumPeriod
  {
  }

  /** `handle_successful_subscription_payment`: the customer's user is
      premium with the renewed expiry; nobody else changes, and nobody at
      all when the invoice names no user's customer id. */
  method HandleSubscriptionPayment(users: UserTable, invoice: map<string, Json>, now: int)
    requires users.Valid()
    modifies users.users
    ensures users.Valid()
    ensures CustomerTarget(users.users, invoice).None? ==> forall u :: u in users.users ==> unchanged(u)
    ensures old(CustomerTarget(users.users, invoice)).Some? ==>
              var t := old(CustomerTarget(users.users, invoice)).value;
              && t.isPremium && t.premiumExpiresAt == Some(Renewed(old(t.premiumExpiresAt), now))
              && t.id == old(t.id) && t.stripeCustomerId == old(t.stripeCustomerId)
              && forall u :: u in users.users && u != t ==> unchanged(u)
  {
    var t := CustomerTarget(users.users, invoice);
    if t.Some? {
      var u := t.value;
      u.premiumExpiresAt := Some(Renewed(u.premiumExpiresAt, now));
      u.isPremium := true;
    }
  }

  /** What `construct_event` gives: the event's type and its
      `data.object`, or the error it raises. */
  datatype Constructed = Event(eventType: string, obj: map<string, Json>) | InvalidPayload | InvalidSignature

  const WebhookOk := Response(200, map["status" := JStr("success")])

  /** `stripe_webhook`: a payload or signature that does not verify is a
      400; otherwise the handler for the event's type runs (a cancelled
      subscription changes nothing) and the reply is always a success. */
  method StripeWebhook(users: UserTable, event: Constructed, now: int) returns (resp: Response)
    requires users.Valid()
    modifies users.users
    ensures users.Valid()
    ensures event.InvalidPayload? ==> resp == ErrorReply(400, "Invalid payload")
    ensures event.InvalidSignature? ==> resp == ErrorReply(400, "Invalid signature")
    ensures event.Event? ==> resp == WebhookOk
    ensures !event.Event? || event.eventType !in {"checkout.session.completed", "invoice.payment_succeeded"} ==>
              forall u :: u in users.users ==> unchanged(u)
    ensures event.Event? && event.eventType == "checkout.session.completed" ==>
              old(PaymentTarget(users.users, event.obj)).Some? ==>
              var t := old(PaymentTarget(users.users, event.obj)).value;
              t.isPremium && t.premiumExpiresAt == Some(now + PremiumPeriod)
    ensures event.Event? && event.eventType == "invoice.payment_succeeded" ==>
              old(CustomerTarget(users.users, event.obj)).Some? ==>
              var t := old(CustomerTarget(users.users, event.obj)).value;
              t.isPremium && t.premiumExpiresAt == Some(Renewed(old(t.premiumExpiresAt), now))
  {
    match event
    case InvalidPayload => return ErrorReply(400, "Invalid payload");
    case InvalidSignature => return ErrorReply(400, "Invalid signature");
    case Event(t, obj) =>
      if t == "checkout.session.completed" {
        HandleSuccessfulPayment(users, obj, now);
      } else if t == "invoice.payment_succeeded" {
        HandleSubscriptionPayment(users, obj, now);
      }
      // customer.subscription.deleted: the handler finds the user and
      // deliberately leaves premium to expire on its own.
      resp := WebhookOk;
  }

  // ---------------------------------------------------------------------
  // cancel_subscription

  /** `cancel_subscription` for a user with the given customer id: no id
      (None or empty) or no active subscription is a 400; a Stripe error
      in the listing or the deletion is a 400 naming it; otherwise the
      first active subscription is the one deleted. */
  function CancelSubscription(customerId: Option<string>, active: Result<seq<string>>, deleteError: bool)
    : (r: (Reply, Option<string>))
    ensures r.1.Some? <==> r.0.success
    ensures customerId.None? || customerId.value == "" ==> r == (Reply(400, false, NoSubscription), None)
    ensures r.0.success ==> r.0 == Reply(200, true, Cancelled) && active.Ok? && active.value != []
                            && r.1 == Some(active.value[0])
    ensures r.0.success <==> customerId.Some? && customerId.value != "" && active.Ok? && active.value != [] && !deleteError
    ensures !r.0.success ==> r.0.status == 400
  {
    if customerId.None? || customerId.value == "" then (Reply(400, false, NoSubscription), None)
    else if active.Err? then (Reply(400, false, Failure(StripeFailure)), None)
    else if active.value == [] then (Reply(400, false, NoSubscription), None)
    else if deleteError then (Reply(400, false, Failure(StripeFailure)), None)
    else (Reply(200, true, Cancelled), Some(active.value[0]))
  }
}
