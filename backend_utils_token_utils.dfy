/** backend/utils/token_utils.py: the expiry and rotation predicates over
    JWT claims, and the invalid-token table that invalidation, rotation and
    clean-up write to. Timestamps are whole seconds. `now` is a parameter
    standing for `datetime.utcnow().timestamp()`: the naive UTC clock read
    as local time, so the epoch seconds less the host's UTC offset. Row
    expiries are read on the same scale, so `fromtimestamp(exp) < utcnow()`
    holds exactly when `exp < now`, unlike the `FromTimestamp(secs,
    utcOffset)` convention of the route and webhook modules. The
    `InvalidToken` model the file imports is defined nowhere in the
    repository: its row here has the columns of the constructor call in
    `invalidate_token`. */
module TokenUtils {
  import opened Common

  /** The decoded claims of a token. */
  type Claims = map<string, Json>

  const DefaultBufferTime := 300
  const DefaultRotationThreshold := 24 * 3600
  const DefaultMaxRefreshCount := 100

  /** The `exp` claim as a number, 0 when it is absent. */
  function ExpOf(claims: Claims): Option<int> {
    PyNumber(GetOr(claims, "exp", JInt(0)))
  }

  datatype Expiry = Expiry(isExpiring: bool, timeUntilExpiry: int)

  /** `check_token_expiration`: the seconds left until `exp`, and whether
      they are within the buffer. A non-numeric exp raises. */
  function CheckTokenExpiration(claims: Claims, now: int, bufferTime: int): (r: Result<Expiry>)
    ensures r.Ok? <==> ExpOf(claims).Some?
    ensures r.Ok? ==> r.value.timeUntilExpiry + now == ExpOf(claims).value
    ensures r.Ok? ==> (r.value.isExpiring <==> ExpOf(claims).value <= now + bufferTime)
  {
    match ExpOf(claims)
    case None => Err("TypeError: unsupported operand type for exp")
    case Some(exp) =>
      var timeUntilExpiry := exp - now;
      Ok(Expiry(timeUntilExpiry <= bufferTime, timeUntilExpiry))
  }

  /** A token without an `exp` claim counts as expired at time 0, so it is
      "expiring" at every time from 0 on. */
  lemma MissingExpIsExpiring(claims: Claims, now: int)
    requires "exp" !in claims && now >= 0
    ensures CheckTokenExpiration(claims, now, DefaultBufferTime) == Ok(Expiry(true, -now))
  {
  }

  /** Once expiring, a token stays expiring as time passes. */
  lemma ExpiringPersists(claims: Claims, now: int, later: int, bufferTime: int)
    requires now <= later
    requires CheckTokenExpiration(claims, now, bufferTime).Ok?
    requires CheckTokenExpiration(claims, now, bufferTime).value.isExpiring
    ensures CheckTokenExpiration(claims, later, bufferTime).value.isExpiring
  {
  }

  /** `should_rotate_refresh_token`, with `refreshLifetime` standing for
      JWT_REFRESH_TOKEN_EXPIRES in seconds; `t < lifetime / 2` is written
      `2 * t < lifetime`, which is the same comparison on whole numbers.
      Python's `or` stops at the first true operand, so a refresh_count that
      cannot be compared only raises when the first test is false. */
  function ShouldRotateRefreshToken(claims: Claims, now: int, rotationThreshold: int,
                                    maxRefreshCount: int, refreshLifetime: int): (r: Result<bool>)
    ensures ExpOf(claims).None? ==> r.Err?
    ensures ExpOf(claims).Some? && ExpOf(claims).value - now < rotationThreshold ==> r == Ok(true)
    ensures r.Ok? ==> ExpOf(claims).Some?
    ensures (ExpOf(claims).Some? && ExpOf(claims).value - now >= rotationThreshold
             && PyNumber(GetOr(claims, "refresh_count", JInt(0))).None?) ==> r.Err?
  {
    match CheckTokenExpiration(claims, now, DefaultBufferTime)
    case Err(e) => Err(e)
    case Ok(expiry) =>
      var t := expiry.timeUntilExpiry;
      if t < rotationThreshold then Ok(true)
      else
        match PyNumber(GetOr(claims, "refresh_count", JInt(0)))
        case None => Err("TypeError: refresh_count is not comparable")
        case Some(count) => Ok(count >= maxRefreshCount || 2 * t < refreshLifetime)
  }

  /** With numeric claims, rotation is due exactly when one of the three
      conditions holds; a missing refresh_count counts as 0. */
  lemma RotationConditions(claims: Claims, now: int, threshold: int, maxCount: int, lifetime: int,
                           exp: int, count: int)
    requires ExpOf(claims) == Some(exp)
    requires PyNumber(GetOr(claims, "refresh_count", JInt(0))) == Some(count)
    ensures ShouldRotateRefreshToken(claims, now, threshold, maxCount, lifetime)
            == Ok(exp - now < threshold || count >= maxCount || 2 * (exp - now) < lifetime)
  {
  }

  /** A due rotation stays due as time passes. */
  lemma RotationPersists(claims: Claims, now: int, later: int, threshold: int, maxCount: int, lifetime: int)
    requires now <= later
    requires ShouldRotateRefreshToken(claims, now, threshold, maxCount, lifetime) == Ok(true)
    ensures ShouldRotateRefreshToken(claims, later, threshold, maxCount, lifetime) == Ok(true)
  {
    var exp := ExpOf(claims).value;
    if exp - later >= threshold {
      assert exp - now >= threshold;
    }
  }

  // ---------------------------------------------------------------------
  // The invalid-token table

  /** A row of the invalid-token table: jti, type, integer user id and
      expiry timestamp. */
  datatype InvalidToken = InvalidToken(jti: Json, tokenType: Json, userId: int, expires: int)

  /** The row `invalidate_token` builds for the claims. `fromtimestamp(exp)`
      raises for an absent or non-numeric exp and `int(sub)` for a sub that
      is not an integer. */
  function TokenRecord(claims: Claims): (r: Result<InvalidToken>)
    ensures r.Ok? <==> && PyNumber(GetOr(claims, "exp", JNull)).Some?
                       && PyIntOf(GetOr(claims, "sub", JNull)).IntOk?
    ensures r.Ok? ==> && r.value.jti == GetOr(claims, "jti", JNull)
                      && r.value.expires == PyNumber(claims["exp"]).value
                      && r.value.userId == PyIntOf(claims["sub"]).n
                      && r.value.tokenType == GetOr(claims, "type", JStr("access"))
  {
    match PyNumber(GetOr(claims, "exp", JNull))
    case None => Err("TypeError: exp is not a timestamp")
    case Some(expires) =>
      match PyIntOf(GetOr(claims, "sub", JNull))
      case IntOk(userId) =>
        Ok(InvalidToken(GetOr(claims, "jti", JNull), GetOr(claims, "type", JStr("access")), userId, expires))
      case _ => Err("ValueError: sub is not an integer")
  }

  /** A string subject produced from an integer identity is accepted. */
  lemma StringSubjectAccepted(claims: Claims, userId: int, s: string, exp: int)
    requires s == IntToString(userId)
    requires claims == map["sub" := JStr(s), "exp" := JInt(exp)]
    ensures TokenRecord(claims).Ok?
    ensures TokenRecord(claims).value == InvalidToken(JNull, JStr("access"), userId, exp)
  {
    ParseIntToString(userId, s);
    NumericSubjectAccepted(claims, userId, s, exp);
  }

  /** A string subject that `int()` accepts is the row's user id. */
  lemma NumericSubjectAccepted(claims: Claims, userId: int, s: string, exp: int)
    requires ParsePyInt(s) == Some(userId)
    requires claims == map["sub" := JStr(s), "exp" := JInt(exp)]
    ensures TokenRecord(claims).Ok?
    ensures TokenRecord(claims).value == InvalidToken(JNull, JStr("access"), userId, exp)
  {
    assert PyIntOf(JStr(s)) == IntOk(userId);
    assert GetOr(claims, "sub", JNull) == JStr(s);
    assert GetOr(claims, "exp", JNull) == JInt(exp);
    assert "jti" !in claims && "type" !in claims;
  }

  /** The additional claims of a rotated refresh token. */
  datatype RotatedClaims = RotatedClaims(identity: Json, refreshCount: int, tokenType: string, rotatedAt: int)

  /** Rows whose expiry is strictly before `now`, in table order. */
  function Expired(rows: seq<InvalidToken>, now: int): (e: seq<InvalidToken>)
    ensures forall t :: t in e ==> t in rows && t.expires < now
    ensures forall t :: t in rows && t.expires < now ==> t in e
  {
    if rows == [] then []
    else (if rows[0].expires < now then [rows[0]] else []) + Expired(rows[1..], now)
  }

  /** Rows whose expiry is at or after `now`, in table order. */
  function Unexpired(rows: seq<InvalidToken>, now: int): (k: seq<InvalidToken>)
    ensures forall t :: t in k ==> t in rows && t.expires >= now
    ensures forall t :: t in rows && t.expires >= now ==> t in k
  {
    if rows == [] then []
    else (if rows[0].expires >= now then [rows[0]] else []) + Unexpired(rows[1..], now)
  }

  /** Clean-up splits the table: every row is either removed or kept. */
  lemma {:induction false} CleanupPartition(rows: seq<InvalidToken>, now: int)
    ensures |Expired(rows, now)| + |Unexpired(rows, now)| == |rows|
  {
    if rows != [] {
      CleanupPartition(rows[1..], now);
    }
  }

  class InvalidTokenTable {
    var rows: seq<InvalidToken>

    constructor ()
      ensures rows == []
    {
      rows := [];
    }

    /** `invalidate_token`: adds the claims' row and returns it; when
        building the row raises, nothing is added. */
    method InvalidateToken(claims: Claims) returns (r: Result<InvalidToken>)
      modifies this
      ensures r == TokenRecord(claims)
      ensures r.Ok? ==> rows == old(rows) + [r.value]
      ensures r.Err? ==> rows == old(rows)
    {
      r := TokenRecord(claims);
      if r.Ok? {
        rows := rows + [r.value];
      }
    }

    /** `create_rotated_refresh_token`: the new token's claims carry the old
        refresh_count (0 when absent) plus one and type 'refresh', and the
        old token is invalidated. An exception from either step leaves the
        table as it was and returns no token. */
    method CreateRotatedRefreshToken(identity: Json, oldClaims: Claims, now: int)
      returns (r: Result<RotatedClaims>)
      modifies this
      ensures r.Ok? <==> PyNumber(GetOr(oldClaims, "refresh_count", JInt(0))).Some?
                         && TokenRecord(oldClaims).Ok?
      ensures r.Ok? ==> && r.value.refreshCount == PyNumber(GetOr(oldClaims, "refresh_count", JInt(0))).value + 1
                        && r.value.tokenType == "refresh"
                        && r.value.identity == identity
                        && rows == old(rows) + [TokenRecord(oldClaims).value]
      ensures r.Err? ==> rows == old(rows)
    {
      var oldCount := PyNumber(GetOr(oldClaims, "refresh_count", JInt(0)));
      if oldCount.None? {
        return Err("TypeError: refresh_count is not a number");
      }
      var newToken := RotatedClaims(identity, oldCount.value + 1, "refresh", now);
      var invalidated := InvalidateToken(oldClaims);
      if invalidated.Err? {
        return Err(invalidated.msg);
      }
      r := Ok(newToken);
    }

    /** `cleanup_expired_tokens`: one bulk delete of the rows that expired
        before `now`, returning their number; when the database fails
        (`dbFails`) the session is rolled back and 0 is returned. */
    method CleanupExpiredTokens(now: int, dbFails: bool) returns (count: nat)
      modifies this
      ensures dbFails ==> count == 0 && rows == old(rows)
      ensures !dbFails ==> rows == Unexpired(old(rows), now) && count == |Expired(old(rows), now)|
      ensures !dbFails ==> count + |rows| == |old(rows)|
    {
      if dbFails {
        return 0;
      }
      count := |Expired(rows, now)|;
      CleanupPartition(rows, now);
      rows := Unexpired(rows, now);
    }
  }
}
