/** backend/app/models/blacklisted_token.py: the table of revoked JWTs, its
    membership query, its clean-up of expired rows and the row's repr.
    Timestamps are whole seconds; the clock is the `now` parameter. */
module AppBlacklistedToken {
  import opened Common

  datatype BlacklistedToken = BlacklistedToken(id: int, jti: string, tokenType: string,
                                               userId: string, revokedAt: int, expiresAt: int)

  const ReprHead := "<BlacklistedToken "

  /** `__repr__`. */
  function Repr(t: BlacklistedToken): string {
    ReprHead + t.jti + ">"
  }

  /** Reads the jti back out of a repr; None for text of any other shape. */
  function JtiOfRepr(r: string): (jti: Option<string>)
    ensures jti.Some? ==> r == ReprHead + jti.value + ">"
  {
    if |r| >= |ReprHead| + 1 && r[..|ReprHead|] == ReprHead && r[|r| - 1] == '>'
    then
      assert r == r[..|ReprHead|] + r[|ReprHead|..|r| - 1] + [r[|r| - 1]];
      Some(r[|ReprHead|..|r| - 1])
    else None
  }

  /** The repr shows the jti and nothing else: it can be read back. */
  lemma ReprRoundTrip(t: BlacklistedToken)
    ensures JtiOfRepr(Repr(t)) == Some(t.jti)
  {
    var r := Repr(t);
    assert r[..|ReprHead|] == ReprHead;
    assert r[|ReprHead|..|r| - 1] == t.jti;
  }

  /** The rows `expires_at < now` selects, in table order. */
  function Expired(rows: seq<BlacklistedToken>, now: int): (e: seq<BlacklistedToken>)
    ensures forall t :: t in e <==> t in rows && t.expiresAt < now
    ensures |e| <= |rows|
  {
    if rows == [] then []
    else (if rows[0].expiresAt < now then [rows[0]] else []) + Expired(rows[1..], now)
  }

  /** The rows that survive clean-up, in table order. */
  function Unexpired(rows: seq<BlacklistedToken>, now: int): (k: seq<BlacklistedToken>)
    ensures forall i :: 0 <= i < |k| ==> k[i] in rows && k[i].expiresAt >= now
  {
    if rows == [] then []
    else (if rows[0].expiresAt >= now then [rows[0]] else []) + Unexpired(rows[1..], now)
  }

  /** Clean-up keeps every row that has not expired before `now`, in
      particular a row that expires exactly at `now`. */
  lemma {:induction false} UnexpiredKept(rows: seq<BlacklistedToken>, now: int, t: BlacklistedToken)
    requires t in rows && t.expiresAt >= now
    ensures t in Unexpired(rows, now)
  {
    if rows[0] != t {
      UnexpiredKept(rows[1..], now, t);
    }
  }

  /** The rows that are not in `gone`, in order: the table after the
      session deleted the rows of `gone`. */
  function Without(rows: seq<BlacklistedToken>, gone: set<BlacklistedToken>): (k: seq<BlacklistedToken>)
    ensures |k| <= |rows|
  {
    if rows == [] then []
    else (if rows[0] in gone then [] else [rows[0]]) + Without(rows[1..], gone)
  }

  /** Deleting the expired rows one by one leaves exactly the unexpired ones,
      in their order. */
  lemma {:induction false} WithoutExpired(rows: seq<BlacklistedToken>, gone: set<BlacklistedToken>, now: int)
    requires forall t :: t in rows ==> (t in gone <==> t.expiresAt < now)
    ensures Without(rows, gone) == Unexpired(rows, now)
  {
    if rows != [] {
      WithoutExpired(rows[1..], gone, now);
    }
  }

  /** The number of removed and kept rows adds up to the table size. */
  lemma {:induction false} ExpiredSplit(rows: seq<BlacklistedToken>, now: int)
    ensures |Expired(rows, now)| + |Unexpired(rows, now)| == |rows|
  {
    if rows != [] {
      ExpiredSplit(rows[1..], now);
    }
  }

  /** Some row carries the jti. */
  function HasJti(rows: seq<BlacklistedToken>, jti: string): (b: bool)
    ensures b <==> exists i :: 0 <= i < |rows| && rows[i].jti == jti
  {
    if rows == [] then false
    else rows[0].jti == jti || (assert forall i :: 1 <= i < |rows| ==> rows[i] == rows[1..][i - 1]; HasJti(rows[1..], jti))
  }

  /** Some unexpired 'all_user_tokens' row is recorded for the user id: the
      user-wide revocation that logging out everywhere writes. */
  function HasUserWideEntry(rows: seq<BlacklistedToken>, userId: string, now: int): (b: bool)
    ensures b <==> exists i :: 0 <= i < |rows| && rows[i].userId == userId
                              && rows[i].tokenType == "all_user_tokens" && rows[i].expiresAt > now
  {
    if rows == [] then false
    else
      (rows[0].userId == userId && rows[0].tokenType == "all_user_tokens" && rows[0].expiresAt > now)
      || (assert forall i :: 1 <= i < |rows| ==> rows[i] == rows[1..][i - 1]; HasUserWideEntry(rows[1..], userId, now))
  }

  function MaxId(rows: seq<BlacklistedToken>): (m: int)
    ensures m >= 0 && forall t :: t in rows ==> t.id <= m
  {
    if rows == [] then 0 else var rest := MaxId(rows[1..]); if rows[0].id > rest then rows[0].id else rest
  }

  /** Two rows whose id and jti both differ. */
  predicate KeysDiffer(a: BlacklistedToken, b: BlacklistedToken) {
    a.id != b.id && a.jti != b.jti
  }

  ghost predicate UniqueKeys(rows: seq<BlacklistedToken>) {
    forall i, j {:trigger KeysDiffer(rows[i], rows[j])} :: 0 <= i < j < |rows| ==> KeysDiffer(rows[i], rows[j])
  }

  /** Clean-up keeps a subsequence, so the keys stay unique. */
  lemma {:induction false} UnexpiredUnique(rows: seq<BlacklistedToken>, now: int)
    requires UniqueKeys(rows)
    ensures UniqueKeys(Unexpired(rows, now))
  {
    if rows != [] {
      var h, tail := rows[0], rows[1..];
      TailUnique(rows);
      UnexpiredUnique(tail, now);
      var k := Unexpired(tail, now);
      if h.expiresAt >= now {
        forall m | 0 <= m < |k| ensures KeysDiffer(h, k[m]) {
          var j :| 0 <= j < |tail| && tail[j] == k[m];
          assert KeysDiffer(rows[0], rows[j + 1]);
        }
        ConsUnique(h, k);
      }
    }
  }

  lemma TailUnique(rows: seq<BlacklistedToken>)
    requires rows != [] && UniqueKeys(rows)
    ensures UniqueKeys(rows[1..])
  {
    var tail := rows[1..];
    forall i, j | 0 <= i < j < |tail| ensures KeysDiffer(tail[i], tail[j]) {
      assert KeysDiffer(rows[i + 1], rows[j + 1]);
    }
  }

  lemma ConsUnique(h: BlacklistedToken, k: seq<BlacklistedToken>)
    requires UniqueKeys(k) && forall m :: 0 <= m < |k| ==> KeysDiffer(h, k[m])
    ensures UniqueKeys([h] + k)
  {
    var u := [h] + k;
    forall i, j | 0 <= i < j < |u| ensures KeysDiffer(u[i], u[j]) {
      assert u[j] == k[j - 1];
      if i > 0 {
        assert u[i] == k[i - 1];
        assert KeysDiffer(k[i - 1], k[j - 1]);
      }
    }
  }

  class BlacklistTable {
    var rows: seq<BlacklistedToken>

    /** The unique columns: id and jti. */
    ghost predicate Valid()
      reads this
    {
      UniqueKeys(rows)
    }

    constructor ()
      ensures rows == [] && Valid()
    {
      rows := [];
    }

    /** `is_blacklisted`: some row has this jti. */
    function IsBlacklisted(jti: string): (b: bool)
      reads this
      ensures b <==> exists i :: 0 <= i < |rows| && rows[i].jti == jti
    {
      HasJti(rows, jti)
    }

    function NextId(): (id: int)
      reads this
      ensures id >= 1 && forall t :: t in rows ==> t.id < id
    {
      MaxId(rows) + 1
    }

    /** Adds a row and commits; the unique jti makes the commit fail, and
        nothing is added, when the jti is already in the table. */
    method Add(jti: string, tokenType: string, userId: string, expiresAt: int, now: int)
      returns (ok: bool)
      requires Valid()
      modifies this
      ensures Valid()
      ensures ok <==> !old(IsBlacklisted(jti))
      ensures ok ==> rows == old(rows) + [BlacklistedToken(old(NextId()), jti, tokenType, userId, now, expiresAt)]
      ensures !ok ==> rows == old(rows)
      ensures IsBlacklisted(jti)
    {
      if IsBlacklisted(jti) {
        return false;
      }
      var id := NextId();
      rows := rows + [BlacklistedToken(id, jti, tokenType, userId, now, expiresAt)];
      assert rows[|rows| - 1].jti == jti;
      ok := true;
    }

    /** `cleanup_expired_tokens`: selects the rows with `expires_at < now`,
        deletes them one by one and returns how many there were. A row that
        expires exactly at `now` stays. */
    method CleanupExpiredTokens(now: int) returns (count: nat)
      requires Valid()
      modifies this
      ensures Valid()
      ensures rows == Unexpired(old(rows), now)
      ensures count == |Expired(old(rows), now)|
      ensures count + |rows| == |old(rows)|
    {
      var expired := Expired(rows, now);
      ghost var orig := rows;
      ghost var gone: set<BlacklistedToken> := {};
      var i := 0;
      WithoutNothing(orig);
      while i < |expired|
        invariant 0 <= i <= |expired|
        invariant gone == Members(expired[..i])
        invariant rows == Without(orig, gone)
      {
        rows := Without(rows, {expired[i]});
        WithoutTwice(orig, gone, expired[i]);
        MembersSnoc(expired, i);
        gone := gone + {expired[i]};
        i := i + 1;
      }
      assert expired[..i] == expired;
      CleanedUp(orig, gone, now);
      count := |expired|;
    }
  }

  /** Deleting the rows of `Expired` leaves `Unexpired`, with unique keys
      and the sizes adding up. */
  lemma CleanedUp(orig: seq<BlacklistedToken>, gone: set<BlacklistedToken>, now: int)
    requires UniqueKeys(orig) && gone == Members(Expired(orig, now))
    ensures Without(orig, gone) == Unexpired(orig, now) && UniqueKeys(Unexpired(orig, now))
    ensures |Expired(orig, now)| + |Unexpired(orig, now)| == |orig|
  {
    WithoutExpired(orig, gone, now);
    ExpiredSplit(orig, now);
    UnexpiredUnique(orig, now);
  }

  /** The rows of a sequence, as a set. */
  function Members(s: seq<BlacklistedToken>): (m: set<BlacklistedToken>)
    ensures forall t :: t in m <==> t in s
  {
    set t | t in s
  }

  lemma MembersSnoc(s: seq<BlacklistedToken>, i: int)
    requires 0 <= i < |s|
    ensures Members(s[..i + 1]) == Members(s[..i]) + {s[i]}
  {
    assert s[..i + 1] == s[..i] + [s[i]];
  }

  /** Deleting one more row after a set of rows is deleting the union. */
  lemma {:induction false} WithoutTwice(rows: seq<BlacklistedToken>, gone: set<BlacklistedToken>, t: BlacklistedToken)
    ensures Without(Without(rows, gone), {t}) == Without(rows, gone + {t})
  {
    if rows != [] {
      var r, rest := rows[0], rows[1..];
      assert rows == [r] + rest;
      WithoutTwice(rest, gone, t);
      WithoutCons(r, rest, gone);
      WithoutCons(r, rest, gone + {t});
      if r !in gone {
        assert Without(rows, gone) == [r] + Without(rest, gone);
        WithoutCons(r, Without(rest, gone), {t});
        assert Without(Without(rows, gone), {t}) == (if r == t then [] else [r]) + Without(rest, gone + {t});
        assert (r in gone + {t}) == (r == t);
      } else {
        assert Without(rows, gone) == [] + Without(rest, gone) == Without(rest, gone);
        assert Without(rows, gone + {t}) == [] + Without(rest, gone + {t}) == Without(rest, gone + {t});
      }
    }
  }

  lemma WithoutCons(r: BlacklistedToken, rest: seq<BlacklistedToken>, gone: set<BlacklistedToken>)
    ensures Without([r] + rest, gone) == (if r in gone then [] else [r]) + Without(rest, gone)
  {
    assert ([r] + rest)[1..] == rest;
  }

  lemma {:induction false} WithoutNothing(rows: seq<BlacklistedToken>)
    ensures Without(rows, {}) == rows
  {
    if rows != [] {
      WithoutNothing(rows[1..]);
    }
  }
}
