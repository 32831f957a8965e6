/** SQLite's LIKE operator, which SQLAlchemy's `ilike` and `contains`
    compile to: `%` matches any run of characters, `_` any one character,
    and ASCII letters match regardless of case. */
module SqlLike {
  import opened Common

  /** `s LIKE p`. */
  predicate Like(s: string, p: string)
    decreases |s| + |p|
  {
    if p == [] then s == []
    else if p[0] == '%' then Like(s, p[1..]) || (s != [] && Like(s[1..], p))
    else s != [] && (p[0] == '_' || LowerChar(s[0]) == LowerChar(p[0])) && Like(s[1..], p[1..])
  }

  predicate NoWildcards(t: string) {
    forall k :: 0 <= k < |t| ==> t[k] != '%' && t[k] != '_'
  }

  /** `%` matches any text. */
  lemma {:induction false} PercentMatchesAll(s: string)
    ensures Like(s, "%")
    decreases |s|
  {
    assert "%"[1..] == [];
    if s != [] {
      PercentMatchesAll(s[1..]);
    }
  }

  /** A wildcard-free pattern followed by `%` matches exactly the texts
      that start with it, ignoring case. */
  lemma {:induction false} PrefixLike(s: string, t: string)
    requires NoWildcards(t)
    ensures Like(s, t + "%") <==> |t| <= |s| && forall k :: 0 <= k < |t| ==> LowerChar(s[k]) == LowerChar(t[k])
    decreases |t|
  {
    if t == [] {
      assert t + "%" == "%";
      PercentMatchesAll(s);
    } else {
      assert (t + "%")[0] == t[0] && (t + "%")[1..] == t[1..] + "%";
      assert t[0] != '%' && t[0] != '_';
      if s != [] {
        PrefixLike(s[1..], t[1..]);
        if |t| <= |s| && LowerChar(s[0]) == LowerChar(t[0]) && Like(s[1..], t[1..] + "%") {
          assert forall k :: 1 <= k < |t| ==> s[k] == s[1..][k - 1] && t[k] == t[1..][k - 1];
        }
        if |t| <= |s| && forall k :: 0 <= k < |t| ==> LowerChar(s[k]) == LowerChar(t[k]) {
          assert forall k :: 0 <= k < |t| - 1 ==> s[1..][k] == s[k + 1] && t[1..][k] == t[k + 1];
        }
      }
    }
  }

  /** A leading `%` lets the rest match at any position. */
  lemma {:induction false} LeadingPercent(s: string, p: string)
    ensures Like(s, "%" + p) <==> exists i :: 0 <= i <= |s| && Like(s[i..], p)
    decreases |s|
  {
    assert ("%" + p)[0] == '%' && ("%" + p)[1..] == p;
    assert s[0..] == s;
    if s != [] {
      LeadingPercent(s[1..], p);
      assert forall i :: 1 <= i <= |s| ==> s[i..] == s[1..][i - 1..];
      if Like(s[1..], "%" + p) {
        var i :| 0 <= i <= |s[1..]| && Like(s[1..][i..], p);
        assert s[i + 1..] == s[1..][i..];
      }
    }
  }

  /** At position `i`, the rest of `%search%` matches exactly where the
      lowered search occurs in the lowered text. */
  lemma SearchAt(s: string, t: string, i: nat)
    requires NoWildcards(t) && i <= |s|
    ensures Like(s[i..], t + "%") <==> OccursAt(Lower(s), Lower(t), i)
  {
    PrefixLike(s[i..], t);
    var ls, lt := Lower(s), Lower(t);
    if |t| <= |s| - i {
      assert forall k :: 0 <= k < |t| ==> ls[i..i + |lt|][k] == LowerChar(s[i..][k]) && lt[k] == LowerChar(t[k]);
    }
  }

  /** For a search without `%` or `_`, the pattern `%search%` matches
      exactly the texts that contain the search, ignoring ASCII case. */
  lemma SearchIsContains(s: string, t: string)
    requires NoWildcards(t)
    ensures Like(s, "%" + t + "%") <==> Contains(Lower(s), Lower(t))
  {
    assert "%" + t + "%" == "%" + (t + "%");
    LeadingPercent(s, t + "%");
    forall i | 0 <= i <= |s|
      ensures Like(s[i..], t + "%") <==> OccursAt(Lower(s), Lower(t), i)
    {
      SearchAt(s, t, i);
    }
  }

  /** A search of "_" is a wildcard: `%_%` matches exactly the
      non-empty texts. */
  lemma UnderscoreMatchesAnyText(s: string)
    ensures Like(s, "%" + "_" + "%") <==> s != []
  {
    assert ("%" + "_" + "%")[1..] == "_%";
    assert "_%"[1..] == "%";
    if s != [] {
      PercentMatchesAll(s[1..]);
      assert Like(s, "_%");
    }
  }
}
