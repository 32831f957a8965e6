/** backend/app/models/helpers.py: `_process_subscription_by_email`, and
    the subscription upsert it shares with the checkout branch of the
    Stripe webhook in backend/app/stripe_controller.py. */
module AppModelHelpers {
  import opened Common
  import opened AppUserModel
  import opened AppPayment

  /** `timedelta(days=30)`. */
  const Period := 30 * Day

  /** The values a checkout session gives the subscription row: the text
      SQLite stores in the id column, or NULL. Stripe sends these ids as
      text or null. */
  function SessionCustomer(session: map<string, Json>): Option<string> {
    SqliteText(GetOr(session, "customer", JNull))
  }

  function SessionSubscription(session: map<string, Json>): Option<string> {
    SqliteText(GetOr(session, "subscription", JNull))
  }

  /** The row the upsert leaves: the user's, 'active' for the 30 days from
      `now`, with the session's customer and subscription ids. */
  predicate ActiveFrom(s: StripeSubscription, userId: int, session: map<string, Json>, now: int)
    reads s
  {
    && s.userId == userId && s.status == "active" && s.currentPeriodStart == now && s.currentPeriodEnd == now + Period
    && s.stripeCustomerId == SessionCustomer(session) && s.stripeSubscriptionId == SessionSubscription(session)
  }

  /** The subscription row the upsert would write over, or null. */
  function Existing(subs: SubscriptionTable, u: User): StripeSubscription?
    reads subs, subs.subs, u
  {
    match subs.ByUserId(u.id)
    case Some(s) => s
    case None => null
  }

  /** Upserts the user's subscription (the first row with their user id)
      as 'active' for the 30 days from `now`, with the session's customer
      and subscription ids. When the commit would fail because another row
      holds one of the Stripe ids, nothing changes and `ok` is false. */
  method UpsertSubscription(subs: SubscriptionTable, u: User, session: map<string, Json>, now: int)
    returns (ok: bool, s: StripeSubscription?)
    requires subs.Valid()
    modifies subs, subs.subs
    ensures subs.Valid()
    ensures ok <==> !old(StripeIdsTaken(subs.subs, Existing(subs, u), SessionCustomer(session), SessionSubscription(session)))
    ensures !ok ==> subs.subs == old(subs.subs) && forall t :: t in subs.subs ==> unchanged(t)
    ensures ok ==> s != null && s in subs.subs && ActiveFrom(s, u.id, session, now)
    ensures ok && old(Existing(subs, u)) == null ==>
              fresh(s) && subs.subs == old(subs.subs) + [s] && s.id == old(subs.NextId())
    ensures ok && old(Existing(subs, u)) != null ==>
              s == old(Existing(subs, u)) && subs.subs == old(subs.subs) && s.id == old(s.id)
              && s.canceledAt == old(s.canceledAt) && s.failedPaymentCount == old(s.failedPaymentCount)
    ensures ok ==> forall t :: t in old(subs.subs) && t != s ==> unchanged(t)
  {
    var cust, sid := SessionCustomer(session), SessionSubscription(session);
    var existing := Existing(subs, u);
    if StripeIdsTaken(subs.subs, existing, cust, sid) {
      return false, null;
    }
    if existing == null {
      s := AppendRow(subs, u.id, cust, sid, now);
    } else {
      s := existing;
      UpdateRow(subs, s, cust, sid, now);
    }
    ok := true;
  }

  /** A new 'active' row for the 30 days from `now`. */
  method AppendRow(subs: SubscriptionTable, userId: int, cust: Option<string>, sid: Option<string>, now: int)
    returns (s: StripeSubscription)
    requires subs.Valid() && !StripeIdsTaken(subs.subs, null, cust, sid)
    modifies subs
    ensures subs.Valid() && fresh(s)
    ensures subs.subs == old(subs.subs) + [s] && s.id == old(subs.NextId()) && s.userId == userId
    ensures s.status == "active" && s.currentPeriodStart == now && s.currentPeriodEnd == now + Period
    ensures s.stripeCustomerId == cust && s.stripeSubscriptionId == sid
  {
    var id := subs.NextId();
    s := new StripeSubscription(id, userId, cust, sid, "active", now, now + Period, now);
    ghost var before := subs.subs;
    subs.subs := subs.subs + [s];
    forall i, j | 0 <= i < j < |subs.subs|
      ensures SubsDiffer(subs.subs[i], subs.subs[j])
    {
      if j == |before| {
        assert subs.subs[i] == before[i] && subs.subs[j] == s;
        assert before[i] in before;
        assert !((cust.Some? && before[i].stripeCustomerId == cust) ||
                (sid.Some? && before[i].stripeSubscriptionId == sid));
      } else {
        assert subs.subs[i] == before[i] && subs.subs[j] == before[j];
        assert SubsDiffer(before[i], before[j]);
      }
    }
  }

  /** The existing row becomes 'active' for the 30 days from `now` with the
      given Stripe ids; its other columns and every other row stay. */
  method UpdateRow(subs: SubscriptionTable, s: StripeSubscription, cust: Option<string>, sid: Option<string>, now: int)
    requires subs.Valid() && s in subs.subs && !StripeIdsTaken(subs.subs, s, cust, sid)
    modifies s
    ensures subs.Valid()
    ensures s.status == "active" && s.currentPeriodStart == now && s.currentPeriodEnd == now + Period
    ensures s.stripeCustomerId == cust && s.stripeSubscriptionId == sid
    ensures s.id == old(s.id) && s.userId == old(s.userId) && s.createdAt == old(s.createdAt)
    ensures s.canceledAt == old(s.canceledAt) && s.failedPaymentCount == old(s.failedPaymentCount)
  {
    s.status := "active";
    s.stripeCustomerId := cust;
    s.stripeSubscriptionId := sid;
    s.currentPeriodStart := now;
    s.currentPeriodEnd := now + Period;
    forall i, j | 0 <= i < j < |subs.subs|
      ensures SubsDiffer(subs.subs[i], subs.subs[j])
    {
      assert old(SubsDiffer(subs.subs[i], subs.subs[j]));
      if subs.subs[i] == s {
        assert subs.subs[j] != s;
        assert !old((cust.Some? && subs.subs[j].stripeCustomerId == cust) || (sid.Some? && subs.subs[j].stripeSubscriptionId == sid));
      } else if subs.subs[j] == s {
        assert !old((cust.Some? && subs.subs[i].stripeCustomerId == cust) || (sid.Some? && subs.subs[i].stripeSubscriptionId == sid));
      }
    }
  }

  /** `User.query.filter_by(email=customer_email).first()` with the email
      as sent: None when it cannot be bound (a list or an object),
      otherwise the first user whose email is its SQLite text. The email
      column is NOT NULL, so a null email names nobody. */
  function EmailOwner(users: UserTable, email: Json): (r: Option<Option<User>>)
    reads users, users.users
    ensures r.None? <==> email.JArr? || email.JObj?
    ensures email.JNull? ==> r == Some(None)
    ensures SqliteText(email).Some? ==> r == Some(users.ByEmail(SqliteText(email).value))
    ensures r.Some? && r.value.Some? ==> r.value.value in users.users && Some(r.value.value.email) == SqliteText(email)
  {
    match TextCell(email)
    case None => None
    case Some(None) => Some(None)
    case Some(Some(e)) => Some(users.ByEmail(e))
  }

  /** `_process_subscription_by_email`: an error, changing nothing, when
      the email cannot be bound; Ok(false), changing nothing, when no user
      has it; otherwise the subscription upsert and the premium grant,
      Ok(true) when the commit succeeds and an error, with nothing
      changed, when a Stripe id another row holds makes it fail. */
  method ProcessSubscriptionByEmail(users: UserTable, subs: SubscriptionTable, email: Json,
                                    session: map<string, Json>, now: int)
    returns (r: Result<bool>, ghost s: StripeSubscription?)
    requires users.Valid() && subs.Valid()
    modifies subs, subs.subs, users.users
    ensures subs.Valid() && users.users == old(users.users) && users.Valid()
    ensures old(EmailOwner(users, email)).None? ==> r.Err?
    ensures r == Ok(false) <==> old(EmailOwner(users, email)) == Some(None)
    ensures !(r == Ok(true)) ==> subs.subs == old(subs.subs) && forall t :: t in subs.subs ==> unchanged(t)
    ensures !(r == Ok(true)) ==> forall v :: v in users.users ==> unchanged(v)
    ensures r == Ok(true) ==> old(EmailOwner(users, email)).Some? && old(EmailOwner(users, email)).value.Some?
    ensures old(EmailOwner(users, email)).Some? && old(EmailOwner(users, email)).value.Some? ==>
              var u := old(EmailOwner(users, email)).value.value;
              && (r == Ok(true) <==>
                    !old(StripeIdsTaken(subs.subs, Existing(subs, u), SessionCustomer(session), SessionSubscription(session))))
              && (r == Ok(true) ==>
                    && u.hasPremiumAccess
                    && u.premiumSince == (if old(u.premiumSince).None? then Some(now) else old(u.premiumSince))
                    && (forall v :: v in users.users && v != u ==> unchanged(v))
                    && s != null && s in subs.subs && ActiveFrom(s, u.id, session, now))
  {
    var owner := EmailOwner(users, email);
    if owner.None? {
      return Err("InterfaceError: the email cannot be bound"), null;
    }
    if owner.value.None? {
      return Ok(false), null;
    }
    var u := owner.value.value;
    r, s := ActivateForUser(users, subs, u, session, now);
  }

  /** The upsert and the premium grant for a user of the table, as one
      commit: when the commit would fail on a taken Stripe id, nothing is
      written and the result is the integrity error. */
  method ActivateForUser(users: UserTable, subs: SubscriptionTable, u: User,
                         session: map<string, Json>, now: int)
    returns (r: Result<bool>, ghost s: StripeSubscription?)
    requires users.Valid() && subs.Valid() && u in users.users
    modifies subs, subs.subs, u
    ensures subs.Valid() && users.Valid()
    ensures r == Ok(true) || r.Err?
    ensures r.Err? ==> subs.subs == old(subs.subs) && unchanged(u) && forall t :: t in subs.subs ==> unchanged(t)
    ensures r == Ok(true) ==> u.hasPremiumAccess && s != null && s in subs.subs && ActiveFrom(s, u.id, session, now)
    ensures r == Ok(true) ==> u.premiumSince == if old(u.premiumSince).None? then Some(now) else old(u.premiumSince)
    ensures r == Ok(true) <==>
              !old(StripeIdsTaken(subs.subs, Existing(subs, u), SessionCustomer(session), SessionSubscription(session)))
    ensures r == Ok(true) && old(Existing(subs, u)) != null ==> subs.subs == old(subs.subs)
    ensures r == Ok(true) && old(Existing(subs, u)) == null ==> subs.subs == old(subs.subs) + [s]
  {
    if StripeIdsTaken(subs.subs, Existing(subs, u), SessionCustomer(session), SessionSubscription(session)) {
      return Err("IntegrityError: a Stripe id is already used by another subscription"), null;
    }
    var ok;
    ok, s := UpsertSubscription(subs, u, session, now);
    GrantAfterUpsert(users, subs, u, s, session, now);
    r := Ok(true);
  }

  /** The premium grant once the upsert has left `s`: the subscription
      table and `s` are not touched. */
  method GrantAfterUpsert(users: UserTable, subs: SubscriptionTable, u: User, ghost s: StripeSubscription,
                          session: map<string, Json>, now: int)
    requires users.Valid() && subs.Valid() && u in users.users
    requires s in subs.subs && ActiveFrom(s, u.id, session, now)
    modifies u
    ensures users.Valid() && subs.Valid() && u.hasPremiumAccess
    ensures u.premiumSince == if old(u.premiumSince).None? then Some(now) else old(u.premiumSince)
    ensures s in subs.subs && ActiveFrom(s, u.id, session, now)
  {
    users.GrantPremium(u, now);
  }
}
