/** backend_v2/app/models/user.py: the columns of the second backend's
    `User` that its Stripe controller reads and writes. DateTime columns
    are integer seconds. */
module V2UserModel {
  import opened Common

  /** `timedelta(days=30)`. */
  const PremiumPeriod := 30 * Day

  class User {
    var id: int
    var isPremium: bool
    var premiumExpiresAt: Option<int>
    var stripeCustomerId: Option<string>

    constructor (id: int, stripeCustomerId: Option<string>)
      ensures this.id == id && this.stripeCustomerId == stripeCustomerId
      ensures !isPremium && premiumExpiresAt.None?
    {
      this.id := id;
      this.stripeCustomerId := stripeCustomerId;
      isPremium := false;
      premiumExpiresAt := None;
    }

    /** Premium from now for `PremiumPeriod`, whatever expiry was stored. */
    method ActivateFrom(now: int)
      modifies this
      ensures isPremium && premiumExpiresAt == Some(now + PremiumPeriod)
      ensures id == old(id) && stripeCustomerId == old(stripeCustomerId)
    {
      isPremium := true;
      premiumExpiresAt := Some(now + PremiumPeriod);
    }
  }

  /** The first user with the id, as `User.query.get`. */
  function FirstWithId(us: seq<User>, id: int): (r: Option<User>)
    reads us
    ensures r.Some? ==> r.value in us && r.value.id == id
    ensures r.None? ==> forall u :: u in us ==> u.id != id
  {
    if us == [] then None
    else if us[0].id == id then Some(us[0])
    else FirstWithId(us[1..], id)
  }

  /** The first user whose stripe_customer_id is `c`, as
      `filter_by(stripe_customer_id=c).first()`; None matches a user
      without one (`IS NULL`). */
  function FirstWithCustomer(us: seq<User>, c: Option<string>): (r: Option<User>)
    reads us
    ensures r.Some? ==> r.value in us && r.value.stripeCustomerId == c
    ensures r.None? ==> forall u :: u in us ==> u.stripeCustomerId != c
  {
    if us == [] then None
    else if us[0].stripeCustomerId == c then Some(us[0])
    else FirstWithCustomer(us[1..], c)
  }

  class UserTable {
    var users: seq<User>

    ghost predicate Valid()
      reads this, users
    {
      forall i, j :: 0 <= i < j < |users| ==> users[i] != users[j] && users[i].id != users[j].id
    }

    constructor ()
      ensures Valid() && users == []
    {
      users := [];
    }
  }
}
