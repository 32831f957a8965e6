/** The Stripe subscription and payment rows of the main backend, as the
    webhook handlers and the subscription helper update them (their
    declarations are in backend/app/models/payment.py). Amounts are integer
    cents; timestamps are whole seconds. */
module AppPayment {
  import opened Common

  class StripeSubscription {
    var id: int
    var userId: int
    var stripeSubscriptionId: Option<string>
    var stripeCustomerId: Option<string>
    var status: string
    var currentPeriodStart: int
    var currentPeriodEnd: int
    var createdAt: int
    var canceledAt: Option<int>
    /** None for rows written before the column existed. */
    var failedPaymentCount: Option<int>

    constructor (id: int, userId: int, customerId: Option<string>, subscriptionId: Option<string>,
                 status: string, start: int, end: int, now: int)
      ensures this.id == id && this.userId == userId
      ensures stripeCustomerId == customerId && stripeSubscriptionId == subscriptionId
      ensures this.status == status && currentPeriodStart == start && currentPeriodEnd == end
      ensures createdAt == now && canceledAt == None && failedPaymentCount == Some(0)
    {
      this.id := id;
      this.userId := userId;
      stripeCustomerId := customerId;
      stripeSubscriptionId := subscriptionId;
      this.status := status;
      currentPeriodStart := start;
      currentPeriodEnd := end;
      createdAt := now;
      canceledAt := None;
      failedPaymentCount := Some(0);
    }
  }

  class Payment {
    var id: int
    var stripePaymentIntentId: string
    var amountCents: int
    var status: string

    constructor (id: int, intent: string, amountCents: int, status: string)
      ensures this.id == id && stripePaymentIntentId == intent
      ensures this.amountCents == amountCents && this.status == status
    {
      this.id := id;
      stripePaymentIntentId := intent;
      this.amountCents := amountCents;
      this.status := status;
    }
  }

  function FirstForUser(ss: seq<StripeSubscription>, userId: int): (r: Option<StripeSubscription>)
    reads ss
    ensures r.Some? ==> r.value in ss && r.value.userId == userId
    ensures r.None? <==> forall s :: s in ss ==> s.userId != userId
  {
    if ss == [] then None
    else if ss[0].userId == userId then Some(ss[0])
    else FirstForUser(ss[1..], userId)
  }

  function FirstWithStripeId(ss: seq<StripeSubscription>, sid: Option<string>): (r: Option<StripeSubscription>)
    reads ss
    ensures r.Some? ==> r.value in ss && r.value.stripeSubscriptionId == sid
    ensures r.None? <==> forall s :: s in ss ==> s.stripeSubscriptionId != sid
  {
    if ss == [] then None
    else if ss[0].stripeSubscriptionId == sid then Some(ss[0])
    else FirstWithStripeId(ss[1..], sid)
  }

  function MaxSubId(ss: seq<StripeSubscription>): (m: int)
    reads ss
    ensures m >= 0 && forall s :: s in ss ==> s.id <= m
  {
    if ss == [] then 0 else var rest := MaxSubId(ss[1..]); if ss[0].id > rest then ss[0].id else rest
  }

  /** Some row other than `except` already holds one of the two Stripe ids,
      so storing them would break a unique column. */
  predicate StripeIdsTaken(ss: seq<StripeSubscription>, except: StripeSubscription?,
                           customerId: Option<string>, subscriptionId: Option<string>)
    reads ss
  {
    exists i :: 0 <= i < |ss| && ss[i] != except &&
      ((customerId.Some? && ss[i].stripeCustomerId == customerId) ||
       (subscriptionId.Some? && ss[i].stripeSubscriptionId == subscriptionId))
  }

  /** Two rows that may share the subscription table: different objects
      with different ids, customer ids and Stripe subscription ids. */
  ghost predicate SubsDiffer(a: StripeSubscription, b: StripeSubscription)
    reads a, b
  {
    && a != b && a.id != b.id
    && (a.stripeCustomerId.Some? ==> a.stripeCustomerId != b.stripeCustomerId)
    && (a.stripeSubscriptionId.Some? ==> a.stripeSubscriptionId != b.stripeSubscriptionId)
  }

  class SubscriptionTable {
    var subs: seq<StripeSubscription>

    /** One object per row; ids unique; each Stripe id held by one row at most. */
    ghost predicate Valid()
      reads this, subs
    {
      forall i, j {:trigger SubsDiffer(subs[i], subs[j])} :: 0 <= i < j < |subs| ==> SubsDiffer(subs[i], subs[j])
    }

    constructor ()
      ensures subs == [] && Valid()
    {
      subs := [];
    }

    /** `StripeSubscription.query.filter_by(user_id=...).first()`. */
    function ByUserId(userId: int): (r: Option<StripeSubscription>)
      reads this, subs
      ensures r.Some? ==> r.value in subs && r.value.userId == userId
      ensures r.None? <==> forall s :: s in subs ==> s.userId != userId
    {
      FirstForUser(subs, userId)
    }

    /** `filter_by(stripe_subscription_id=...).first()` with the id as
        bound: text, or None, which SQLAlchemy compares with `IS NULL`. */
    function ByStripeId(sid: Option<string>): (r: Option<StripeSubscription>)
      reads this, subs
      ensures r.Some? ==> r.value in subs && r.value.stripeSubscriptionId == sid
      ensures r.None? <==> forall s :: s in subs ==> s.stripeSubscriptionId != sid
    {
      FirstWithStripeId(subs, sid)
    }

    function NextId(): (id: int)
      reads this, subs
      ensures id >= 1 && forall s :: s in subs ==> s.id < id
    {
      MaxSubId(subs) + 1
    }

    /** The unique columns stay unique when only `s`'s other columns
        moved. */
    twostate lemma KeysUnchanged(s: StripeSubscription)
      requires old(Valid()) && subs == old(subs) && s in subs
      requires forall t :: t in subs && t != s ==> unchanged(t)
      requires s.id == old(s.id) && s.stripeCustomerId == old(s.stripeCustomerId)
      requires s.stripeSubscriptionId == old(s.stripeSubscriptionId)
      ensures Valid()
    {
      forall i, j | 0 <= i < j < |subs|
        ensures SubsDiffer(subs[i], subs[j])
      {
        var a, b := subs[i], subs[j];
        assert a in subs && b in subs;
        assert old(SubsDiffer(a, b));
      }
    }
  }

  function FirstWithIntent(ps: seq<Payment>, intent: string): (r: Option<Payment>)
    reads ps
    ensures r.Some? ==> r.value in ps && r.value.stripePaymentIntentId == intent
    ensures r.None? <==> forall p :: p in ps ==> p.stripePaymentIntentId != intent
  {
    if ps == [] then None
    else if ps[0].stripePaymentIntentId == intent then Some(ps[0])
    else FirstWithIntent(ps[1..], intent)
  }

  function MaxPaymentId(ps: seq<Payment>): (m: int)
    reads ps
    ensures m >= 0 && forall p :: p in ps ==> p.id <= m
  {
    if ps == [] then 0 else var rest := MaxPaymentId(ps[1..]); if ps[0].id > rest then ps[0].id else rest
  }

  /** Two rows that may share the payment table: different objects with
      different ids and payment intents. */
  ghost predicate PaymentsDiffer(a: Payment, b: Payment)
    reads a, b
  {
    a != b && a.id != b.id && a.stripePaymentIntentId != b.stripePaymentIntentId
  }

  class PaymentTable {
    var payments: seq<Payment>

    /** One object per row; ids and payment intents unique. */
    ghost predicate Valid()
      reads this, payments
    {
      forall i, j {:trigger PaymentsDiffer(payments[i], payments[j])} :: 0 <= i < j < |payments| ==>
        PaymentsDiffer(payments[i], payments[j])
    }

    constructor ()
      ensures payments == [] && Valid()
    {
      payments := [];
    }

    function ByIntent(intent: string): (r: Option<Payment>)
      reads this, payments
      ensures r.Some? ==> r.value in payments && r.value.stripePaymentIntentId == intent
      ensures r.None? <==> forall p :: p in payments ==> p.stripePaymentIntentId != intent
    {
      FirstWithIntent(payments, intent)
    }

    function NextId(): (id: int)
      reads this, payments
      ensures id >= 1 && forall p :: p in payments ==> p.id < id
    {
      MaxPaymentId(payments) + 1
    }

    /** Adds a row for a payment intent the table does not hold yet. */
    method Add(intent: string, amountCents: int, status: string) returns (p: Payment)
      requires Valid() && ByIntent(intent).None?
      modifies this
      ensures Valid() && fresh(p) && payments == old(payments) + [p]
      ensures p.id == old(NextId()) && p.stripePaymentIntentId == intent
      ensures p.amountCents == amountCents && p.status == status
    {
      p := new Payment(NextId(), intent, amountCents, status);
      payments := payments + [p];
    }

    /** Sets the status of a row; its other columns and the other rows
        stay. */
    method SetStatus(p: Payment, status: string)
      requires Valid() && p in payments
      modifies p
      ensures Valid() && p.status == status
      ensures p.id == old(p.id) && p.stripePaymentIntentId == old(p.stripePaymentIntentId)
      ensures p.amountCents == old(p.amountCents)
    {
      p.status := status;
      forall i, j | 0 <= i < j < |payments|
        ensures PaymentsDiffer(payments[i], payments[j])
      {
        assert old(PaymentsDiffer(payments[i], payments[j]));
      }
    }
  }

  /** Any two rows of a valid subscription table, in either order, differ. */
  lemma SubsOf(subs: SubscriptionTable, i: int, j: int)
    requires subs.Valid() && 0 <= i < |subs.subs| && 0 <= j < |subs.subs| && i != j
    ensures SubsDiffer(subs.subs[i], subs.subs[j])
  {
    if j < i {
      assert SubsDiffer(subs.subs[j], subs.subs[i]);
    }
  }

  /** Any two rows of a valid payment table, in either order, differ. */
  lemma PaymentsOf(payments: PaymentTable, i: int, j: int)
    requires payments.Valid() && 0 <= i < |payments.payments| && 0 <= j < |payments.payments| && i != j
    ensures PaymentsDiffer(payments.payments[i], payments.payments[j])
  {
    if j < i {
      assert PaymentsDiffer(payments.payments[j], payments.payments[i]);
    }
  }
}
