/** backend/app/stripe_resources.py: the user a checkout session is
    created for, and the Stripe webhook. The signature check and
    `stripe.Customer.retrieve` are Stripe calls: their outcomes are
    parameters. `customer` is the email the retrieved customer has (""
    when it has none), None when the retrieval raises. */
module AppStripeResources {
  import opened Common
  import opened AppUserModel
  import opened AppPayment
  import opened AppModelHelpers

  const Canceled := "canceled"
  const PastDue := "past_due"
  /** The failed invoices after which the subscription is cancelled. */
  const MaxFailures := 3

  // ---------------------------------------------------------------------
  // StripeCheckoutSessionResource.post

  /** The checkout lookup: a number below one billion by primary key,
      anything else by google_id; on a miss, by google_id and then by
      primary key. */
  function CheckoutUser(users: UserTable, identity: string): (r: Option<User>)
    reads users, users.users
    ensures r.Some? ==> r.value in users.users
    ensures r.Some? <==> (ParsePyInt(identity).Some? && users.Get(ParsePyInt(identity).value).Some?)
                         || users.ByGoogleId(identity).Some?
    ensures (ParsePyInt(identity).Some? && ParsePyInt(identity).value < 1000000000
             && users.Get(ParsePyInt(identity).value).Some?) ==> r == users.Get(ParsePyInt(identity).value)
  {
    var first :=
      match ParsePyInt(identity)
      case Some(n) => if n < 1000000000 then users.Get(n) else users.ByGoogleId(identity)
      case None => users.ByGoogleId(identity);
    if first.Some? then first
    else
      var byGoogle := users.ByGoogleId(identity);
      if byGoogle.Some? then byGoogle
      else
        match ParsePyInt(identity)
        case Some(n) => users.Get(n)
        case None => None
  }

  /** The checks before the Stripe session is created: a price id, then a
      user; None when the session is created for `CheckoutUser`. */
  function CheckoutRefusal(users: UserTable, data: map<string, Json>, identity: string): (r: Option<Response>)
    reads users, users.users
    ensures !PyTruthy(GetOr(data, "priceId", JNull)) ==> r == Some(ErrorReply(400, "Price ID is required"))
    ensures PyTruthy(GetOr(data, "priceId", JNull)) ==>
              (r.None? <==> CheckoutUser(users, identity).Some?)
              && (r.Some? ==> r == Some(ErrorReply(404, "User not found")))
  {
    if !PyTruthy(GetOr(data, "priceId", JNull)) then Some(ErrorReply(400, "Price ID is required"))
    else if CheckoutUser(users, identity).None? then Some(ErrorReply(404, "User not found"))
    else None
  }

  // ---------------------------------------------------------------------
  // invoice.payment_failed

  /** One failed invoice on a known subscription: the count goes up by
      one (a missing count is 0) and the status is 'past_due', or
      'canceled' with the payer's premium withdrawn from the third failure
      on. `ends_at` is not a column, so the end date is not stored. */
  method CountFailure(users: UserTable, s: StripeSubscription, u: User)
    requires users.Valid() && u in users.users
    modifies s, u
    ensures users.Valid()
    ensures s.failedPaymentCount == Some(old(s.failedPaymentCount).GetOr(0) + 1)
    ensures s.status == if s.failedPaymentCount.value >= MaxFailures then Canceled else PastDue
    ensures s.id == old(s.id) && s.userId == old(s.userId) && s.stripeSubscriptionId == old(s.stripeSubscriptionId)
    ensures s.stripeCustomerId == old(s.stripeCustomerId) && s.canceledAt == old(s.canceledAt)
    ensures s.currentPeriodStart == old(s.currentPeriodStart) && s.currentPeriodEnd == old(s.currentPeriodEnd)
    ensures s.failedPaymentCount.value >= MaxFailures ==>
              && !u.hasPremiumAccess && u.premiumSince == old(u.premiumSince)
              && u.email == old(u.email) && u.role == old(u.role) && u.id == old(u.id)
    ensures s.failedPaymentCount.value < MaxFailures ==> unchanged(u)
  {
    s.failedPaymentCount := Some(s.failedPaymentCount.GetOr(0) + 1);
    s.status := PastDue;
    if s.failedPaymentCount.value >= MaxFailures {
      s.status := Canceled;
      users.RevokePremium(u);
    }
  }

  /** Three failed invoices on a new subscription (no count, or 0): past
      due after the first and the second, with the payer still premium;
      the third brings the count to 3, cancels the subscription and
      withdraws premium. */
  method ThreeFailures(users: UserTable, s: StripeSubscription, u: User) returns (first: string, second: string, premiumAfterTwo: bool)
    requires users.Valid() && u in users.users
    requires s.failedPaymentCount == None || s.failedPaymentCount == Some(0)
    modifies s, u
    ensures users.Valid()
    ensures first == PastDue && second == PastDue && premiumAfterTwo == old(u.hasPremiumAccess)
    ensures s.failedPaymentCount == Some(3) && s.status == Canceled && !u.hasPremiumAccess
    ensures u.email == old(u.email) && u.role == old(u.role) && u.premiumSince == old(u.premiumSince)
  {
    CountFailure(users, s, u);
    first := s.status;
    CountFailure(users, s, u);
    second, premiumAfterTwo := s.status, u.hasPremiumAccess;
    CountFailure(users, s, u);
  }

  /** The Payment row of a failed invoice: created as 'failed' when the
      payment intent has none, otherwise the existing row becomes
      'failed'. Either way the intent has exactly one row. */
  method RecordFailedPayment(payments: PaymentTable, intent: string, amountCents: int)
    requires payments.Valid()
    modifies payments, payments.payments
    ensures payments.Valid()
    ensures payments.ByIntent(intent).Some? && payments.ByIntent(intent).value.status == "failed"
    ensures old(payments.ByIntent(intent)).Some? ==>
              && payments.payments == old(payments.payments)
              && payments.ByIntent(intent) == old(payments.ByIntent(intent))
              && (forall q :: q in payments.payments && q != payments.ByIntent(intent).value ==> unchanged(q))
    ensures old(payments.ByIntent(intent)).None? ==>
              && |payments.payments| == |old(payments.payments)| + 1
              && payments.payments[..|old(payments.payments)|] == old(payments.payments)
              && (forall q :: q in old(payments.payments) ==> unchanged(q))
              && var p := payments.payments[|payments.payments| - 1];
              && p.stripePaymentIntentId == intent && p.amountCents == amountCents && p.status == "failed"
  {
    var existing := payments.ByIntent(intent);
    if existing.None? {
      ghost var before := payments.payments;
      var p := payments.Add(intent, amountCents, "failed");
      assert payments.payments[..|payments.payments| - 1] == before;
      ByIntentOfUniqueLast(payments, p);
    } else {
      payments.SetStatus(existing.value, "failed");
      ByIntentOfUniqueLast(payments, existing.value);
    }
  }

  /** In a valid table, the lookup by a row's own intent finds that row. */
  lemma ByIntentOfUniqueLast(payments: PaymentTable, p: Payment)
    requires payments.Valid() && p in payments.payments
    ensures payments.ByIntent(p.stripePaymentIntentId) == Some(p)
  {
    var q := payments.ByIntent(p.stripePaymentIntentId).value;
    var i :| 0 <= i < |payments.payments| && payments.payments[i] == p;
    var j :| 0 <= j < |payments.payments| && payments.payments[j] == q;
    if i != j {
      PaymentsOf(payments, i, j);
    }
  }

  /** Whether the failed-invoice branch reaches its writes: the amount is
      a number, the invoice names a customer, the customer has an email
      and a user has that email. */
  predicate FailureApplies(users: UserTable, invoice: map<string, Json>, customer: Option<string>)
    reads users, users.users
  {
    && PyNumber(GetOr(invoice, "amount_due", JInt(0))).Some?
    && PyTruthy(GetOr(invoice, "customer", JNull))
    && customer.Some? && customer.value != ""
    && users.ByEmail(customer.value).Some?
  }

  /** The subscription a failed invoice names, when it names one the table
      holds: a truthy id is looked up as its SQLite text, so True finds
      the id '1'. A list or object id cannot be bound (`InvoiceBinds`). */
  function InvoiceSubscription(subs: SubscriptionTable, invoice: map<string, Json>): (r: Option<StripeSubscription>)
    reads subs, subs.subs
    ensures var sid := GetOr(invoice, "subscription", JNull);
      r.Some? ==> r.value in subs.subs && PyTruthy(sid) && r.value.stripeSubscriptionId == SqliteText(sid)
    ensures var sid := GetOr(invoice, "subscription", JNull);
      r.None? <==> !PyTruthy(sid) || SqliteText(sid).None?
                   || forall s :: s in subs.subs ==> s.stripeSubscriptionId != SqliteText(sid)
  {
    var sid := GetOr(invoice, "subscription", JNull);
    if PyTruthy(sid) && SqliteText(sid).Some? then subs.ByStripeId(SqliteText(sid)) else None
  }

  /** The failed invoice's two lookups can bind their ids: a truthy
      subscription id and a truthy payment intent are each text, an int or
      a bool, not a list or an object. Otherwise the query raises inside
      the branch's `try`, before the commit, and the request's session is
      rolled back. */
  predicate InvoiceBinds(invoice: map<string, Json>) {
    && (PyTruthy(GetOr(invoice, "subscription", JNull)) ==> SqliteText(GetOr(invoice, "subscription", JNull)).Some?)
    && (PyTruthy(GetOr(invoice, "payment_intent", JNull)) ==> SqliteText(GetOr(invoice, "payment_intent", JNull)).Some?)
  }

  /** The handling of `invoice.payment_failed` inside its own `try`: every
      error there is swallowed, so nothing changes unless
      `FailureApplies`. Then the subscription the invoice names counts the
      failure, and the payment intent, when given, gets its 'failed' row. */
  method FailedInvoice(users: UserTable, subs: SubscriptionTable, payments: PaymentTable,
                       invoice: map<string, Json>, customer: Option<string>)
    requires users.Valid() && subs.Valid() && payments.Valid()
    modifies users.users, subs.subs, payments, payments.payments
    ensures users.Valid() && subs.Valid() && payments.Valid()
    ensures users.users == old(users.users) && subs.subs == old(subs.subs)
    ensures !old(FailureApplies(users, invoice, customer)) || !InvoiceBinds(invoice) ==>
              && (forall v :: v in users.users ==> unchanged(v))
              && (forall t :: t in subs.subs ==> unchanged(t))
              && payments.payments == old(payments.payments)
              && (forall q :: q in payments.payments ==> unchanged(q))
    ensures old(FailureApplies(users, invoice, customer)) && InvoiceBinds(invoice) ==>
      var u := old(users.ByEmail(customer.value)).value;
      var found := old(InvoiceSubscription(subs, invoice));
      var intent := GetOr(invoice, "payment_intent", JNull);
      && (found.None? ==> (forall t :: t in subs.subs ==> unchanged(t)) && forall v :: v in users.users ==> unchanged(v))
      && (found.Some? ==>
            var s := found.value;
            && s.failedPaymentCount == Some(old(s.failedPaymentCount).GetOr(0) + 1)
            && s.status == (if s.failedPaymentCount.value >= MaxFailures then Canceled else PastDue)
            && (s.failedPaymentCount.value >= MaxFailures ==> !u.hasPremiumAccess)
            && (s.failedPaymentCount.value < MaxFailures ==> unchanged(u))
            && (forall t :: t in subs.subs && t != s ==> unchanged(t))
            && (forall v :: v in users.users && v != u ==> unchanged(v)))
      && (PyTruthy(intent) ==>
            var key := SqliteText(intent).value;
            payments.ByIntent(key).Some? && payments.ByIntent(key).value.status == "failed")
      && (!PyTruthy(intent) ==>
            payments.payments == old(payments.payments) && forall q :: q in payments.payments ==> unchanged(q))
  {
    var amount := PyNumber(GetOr(invoice, "amount_due", JInt(0)));
    if amount.None? || !PyTruthy(GetOr(invoice, "customer", JNull)) || customer.None? || customer.value == "" {
      return;
    }
    var found := users.ByEmail(customer.value);
    if found.None? {
      return;
    }
    ApplyFailure(users, subs, payments, found.value, invoice, amount.value);
  }

  /** The subscription half of `ApplyFailure`. */
  method FailureOnSubscription(users: UserTable, subs: SubscriptionTable, u: User, invoice: map<string, Json>)
    requires users.Valid() && subs.Valid() && u in users.users
    modifies users.users, subs.subs
    ensures users.Valid() && subs.Valid()
    ensures var found := old(InvoiceSubscription(subs, invoice));
      && (found.None? ==> (forall t :: t in subs.subs ==> unchanged(t)) && forall v :: v in users.users ==> unchanged(v))
      && (found.Some? ==>
            var s := found.value;
            && s.failedPaymentCount == Some(old(s.failedPaymentCount).GetOr(0) + 1)
            && s.status == (if s.failedPaymentCount.value >= MaxFailures then Canceled else PastDue)
            && (s.failedPaymentCount.value >= MaxFailures ==> !u.hasPremiumAccess)
            && (s.failedPaymentCount.value < MaxFailures ==> unchanged(u))
            && (forall t :: t in subs.subs && t != s ==> unchanged(t))
            && (forall v :: v in users.users && v != u ==> unchanged(v)))
  {
    var s := InvoiceSubscription(subs, invoice);
    if s.Some? {
      CountFailure(users, s.value, u);
      subs.KeysUnchanged(s.value);
    }
  }

  /** The writes of `FailedInvoice` for the user the customer's email
      names. */
  method ApplyFailure(users: UserTable, subs: SubscriptionTable, payments: PaymentTable, u: User,
                      invoice: map<string, Json>, amountCents: int)
    requires users.Valid() && subs.Valid() && payments.Valid() && u in users.users
    modifies users.users, subs.subs, payments, payments.payments
    ensures users.Valid() && subs.Valid() && payments.Valid()
    ensures users.users == old(users.users) && subs.subs == old(subs.subs)
    ensures !InvoiceBinds(invoice) ==>
              && (forall v :: v in users.users ==> unchanged(v))
              && (forall t :: t in subs.subs ==> unchanged(t))
              && payments.payments == old(payments.payments)
              && (forall q :: q in payments.payments ==> unchanged(q))
    ensures InvoiceBinds(invoice) && old(InvoiceSubscription(subs, invoice)).None? ==>
              (forall t :: t in subs.subs ==> unchanged(t)) && forall v :: v in users.users ==> unchanged(v)
    ensures InvoiceBinds(invoice) && old(InvoiceSubscription(subs, invoice)).Some? ==>
              var s := old(InvoiceSubscription(subs, invoice)).value;
              && s.failedPaymentCount == Some(old(s.failedPaymentCount).GetOr(0) + 1)
              && s.status == (if s.failedPaymentCount.value >= MaxFailures then Canceled else PastDue)
              && (s.failedPaymentCount.value >= MaxFailures ==> !u.hasPremiumAccess)
              && (s.failedPaymentCount.value < MaxFailures ==> unchanged(u))
              && (forall t :: t in subs.subs && t != s ==> unchanged(t))
              && (forall v :: v in users.users && v != u ==> unchanged(v))
    ensures InvoiceBinds(invoice) && PyTruthy(GetOr(invoice, "payment_intent", JNull)) ==>
              var key := SqliteText(GetOr(invoice, "payment_intent", JNull)).value;
              payments.ByIntent(key).Some? && payments.ByIntent(key).value.status == "failed"
    ensures !PyTruthy(GetOr(invoice, "payment_intent", JNull)) ==>
              payments.payments == old(payments.payments) && forall q :: q in payments.payments ==> unchanged(q)
  {
    if !InvoiceBinds(invoice) {
      return;
    }
    ghost var found := InvoiceSubscription(subs, invoice);
    FailureOnSubscription(users, subs, u, invoice);
    label Counted:
    FailedIntent(payments, invoice, amountCents);
    assert users.users == old(users.users) && subs.subs == old(subs.subs);
    assert found.Some? ==> unchanged@Counted(found.value) && unchanged@Counted(u);
    assert forall t :: t in subs.subs ==> unchanged@Counted(t);
    assert forall v :: v in users.users ==> unchanged@Counted(v);
  }

  /** The payment half of `ApplyFailure`: the invoice's payment intent,
      when given, gets its 'failed' row under its SQLite text, so True is
      stored as '1'. An intent that cannot be bound writes nothing. */
  method FailedIntent(payments: PaymentTable, invoice: map<string, Json>, amountCents: int)
    requires payments.Valid()
    modifies payments, payments.payments
    ensures payments.Valid()
    ensures var intent := GetOr(invoice, "payment_intent", JNull);
      PyTruthy(intent) && SqliteText(intent).Some? ==>
        payments.ByIntent(SqliteText(intent).value).Some? && payments.ByIntent(SqliteText(intent).value).value.status == "failed"
    ensures var intent := GetOr(invoice, "payment_intent", JNull);
      !PyTruthy(intent) || SqliteText(intent).None? ==>
        payments.payments == old(payments.payments) && forall q :: q in payments.payments ==> unchanged(q)
  {
    var intent := GetOr(invoice, "payment_intent", JNull);
    var key := SqliteText(intent);
    if PyTruthy(intent) && key.Some? {
      RecordFailedPayment(payments, key.value, amountCents);
    }
  }

  // ---------------------------------------------------------------------
  // StripeWebhookResource.post

  /** The outcome of `stripe.Webhook.construct_event`. */
  datatype Signature = Verified | InvalidPayload | InvalidSignature

  const Success := Response(200, map["status" := JStr("success")])
  const ProcessingError := ErrorReply(500, "Webhook processing error")

  /** The email of a completed checkout: `customer_email`, or, when that
      is falsy, the metadata's 'user_email'. The metadata's `.get` raises
      when it is not an object. */
  function CheckoutEmail(session: map<string, Json>): (r: Result<Json>)
    ensures PyTruthy(GetOr(session, "customer_email", JNull)) ==> r == Ok(session["customer_email"])
    ensures r.Err? ==> !GetOr(session, "metadata", JObj(map[])).JObj?
  {
    var email := GetOr(session, "customer_email", JNull);
    var metadata := GetOr(session, "metadata", JObj(map[]));
    if PyTruthy(email) then Ok(email)
    else if !metadata.JObj? then Err("AttributeError")
    else
      var fallback := GetOr(metadata.fields, "user_email", JNull);
      if PyTruthy(fallback) then Ok(fallback) else Ok(email)
  }

  /** The subscription branches pass three arguments to the two-parameter
      `_process_subscription_by_email`: they raise a TypeError before any
      write once the customer has an email. */
  predicate SubscriptionBranchRaises(obj: map<string, Json>, customer: Option<string>, eventType: string) {
    || "id" !in obj
    || (eventType == "customer.subscription.updated" && "status" !in obj)
    || (PyTruthy(GetOr(obj, "customer", JNull)) && (customer.None? || customer.value != ""))
  }

  /** `StripeWebhookResource.post`. A bad payload or signature is refused
      with 400 before anything else. A completed checkout with an email
      runs `_process_subscription_by_email`; the subscription branches
      never get further than the TypeError; a failed invoice runs
      `FailedInvoice`, whose errors do not reach the answer. */
  method Webhook(users: UserTable, subs: SubscriptionTable, payments: PaymentTable, sig: Signature,
                 eventType: string, obj: map<string, Json>, customer: Option<string>, now: int)
    returns (resp: Response)
    requires users.Valid() && subs.Valid() && payments.Valid()
    modifies users.users, subs, subs.subs, payments, payments.payments
    ensures users.Valid() && subs.Valid() && payments.Valid() && users.users == old(users.users)
    ensures sig == InvalidPayload ==> resp == ErrorReply(400, "Invalid payload")
    ensures sig == InvalidSignature ==> resp == ErrorReply(400, "Invalid signature")
    ensures resp.status == 400 ==>
              && sig != Verified && subs.subs == old(subs.subs) && payments.payments == old(payments.payments)
              && (forall v :: v in users.users ==> unchanged(v))
              && (forall t :: t in subs.subs ==> unchanged(t))
              && (forall q :: q in payments.payments ==> unchanged(q))
    ensures sig == Verified ==> resp == Success || resp == ProcessingError
    ensures sig == Verified && eventType in {"customer.subscription.updated", "customer.subscription.deleted"} ==>
              && (resp == ProcessingError <==> SubscriptionBranchRaises(obj, customer, eventType))
              && subs.subs == old(subs.subs) && payments.payments == old(payments.payments)
              && (forall v :: v in users.users ==> unchanged(v))
              && (forall t :: t in subs.subs ==> unchanged(t))
    ensures sig == Verified && eventType == "invoice.payment_failed" ==>
              (resp == ProcessingError <==> "id" !in obj)
    ensures sig == Verified && eventType == "checkout.session.completed" && "id" in obj
            && CheckoutEmail(obj).Ok? && !PyTruthy(CheckoutEmail(obj).value) ==>
              && resp == Success && subs.subs == old(subs.subs)
              && (forall v :: v in users.users ==> unchanged(v))
    ensures sig == Verified && eventType == "checkout.session.completed" && "id" in obj
            && CheckoutEmail(obj).Ok? && PyTruthy(CheckoutEmail(obj).value)
            && old(EmailOwner(users, CheckoutEmail(obj).value)).None? ==>
              && resp == ProcessingError && subs.subs == old(subs.subs)
              && (forall v :: v in users.users ==> unchanged(v))
              && (forall t :: t in subs.subs ==> unchanged(t))
    ensures sig == Verified && eventType == "checkout.session.completed" && resp == Success && "id" in obj
            && CheckoutEmail(obj).Ok? && PyTruthy(CheckoutEmail(obj).value)
            && old(EmailOwner(users, CheckoutEmail(obj).value)).Some?
            && old(EmailOwner(users, CheckoutEmail(obj).value)).value.Some? ==>
              var u := old(EmailOwner(users, CheckoutEmail(obj).value)).value.value;
              u.hasPremiumAccess && exists s :: s in subs.subs && s.userId == u.id && s.status == "active"
    ensures sig == Verified && eventType !in {"checkout.session.completed", "customer.subscription.updated",
                                              "customer.subscription.deleted", "invoice.payment_failed"} ==>
              && resp == Success && subs.subs == old(subs.subs) && payments.payments == old(payments.payments)
              && (forall v :: v in users.users ==> unchanged(v))
              && (forall t :: t in subs.subs ==> unchanged(t))
  {
    if sig == InvalidPayload {
      return ErrorReply(400, "Invalid payload");
    }
    if sig == InvalidSignature {
      return ErrorReply(400, "Invalid signature");
    }
    if eventType == "checkout.session.completed" {
      if "id" !in obj {
        return ProcessingError;
      }
      var email := CheckoutEmail(obj);
      if email.Err? {
        return ProcessingError;
      }
      if PyTruthy(email.value) {
        ghost var owner := EmailOwner(users, email.value);
        var r, s := ProcessSubscriptionByEmail(users, subs, email.value, obj, now);
        if r.Err? {
          return ProcessingError;
        }
        ghost var done := r.value;
        assert r == Ok(done);
        assert owner.Some? && owner.value.Some? ==> r == Ok(true);
        assert r == Ok(true) ==> var u := owner.value.value;
                                 u.hasPremiumAccess && s != null && s in subs.subs && s.userId == u.id && s.status == "active";
      }
    } else if eventType == "customer.subscription.updated" || eventType == "customer.subscription.deleted" {
      if SubscriptionBranchRaises(obj, customer, eventType) {
        return ProcessingError;
      }
    } else if eventType == "invoice.payment_failed" {
      if "id" !in obj {
        return ProcessingError;
      }
      FailedInvoice(users, subs, payments, obj, customer);
    }
    resp := Success;
  }
}
