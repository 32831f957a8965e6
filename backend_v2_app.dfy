/** backend_v2/app.py: the `after_request` hook `set_cookie_attributes`,
    which rewrites the SameSite attribute of every Set-Cookie header of a
    response so that the cookies travel on cross-site requests. The
    response's headers are a multi-dict of (name, value) pairs whose names
    compare without regard to ASCII case. */
module V2App {
  import opened Common

  const SetCookie := "Set-Cookie"
  /** The lower-cased name the multi-dict compares header names with. */
  const SetCookieKey := Lower(SetCookie)
  const LaxAttribute := "samesite=Lax"
  const NoneAttribute := "samesite=None"
  const AnyAttribute := "samesite="

  datatype Header = Header(name: string, value: string)

  /** Header names match case-insensitively: `ikey` is the lower-cased
      name asked for. */
  predicate Named(h: Header, ikey: string) {
    Lower(h.name) == ikey
  }

  /** `headers.getlist(key)`: the values under the name, in order. */
  function GetList(items: seq<Header>, ikey: string): seq<string> {
    if items == [] then []
    else
      var rest := GetList(items[..|items| - 1], ikey);
      var last := items[|items| - 1];
      if Named(last, ikey) then rest + [last.value] else rest
  }

  /** The headers with none under the name left, the others in order. */
  function Without(items: seq<Header>, ikey: string): seq<Header> {
    if items == [] then []
    else
      var rest := Without(items[..|items| - 1], ikey);
      var last := items[|items| - 1];
      if Named(last, ikey) then rest else rest + [last]
  }

  /** Headers under one name, carrying the values in order. */
  function AllNamed(name: string, values: seq<string>): (r: seq<Header>)
    ensures |r| == |values|
  {
    if values == [] then [] else AllNamed(name, values[..|values| - 1]) + [Header(name, values[|values| - 1])]
  }

  /** The rewrite of one Set-Cookie value: a lower-case 'samesite=Lax'
      becomes 'samesite=None' wherever it occurs; a value without any
      'samesite=' gets '; samesite=None' appended; any other value is
      left alone. The tests are case-sensitive. */
  function RewriteCookie(header: string): string {
    if Contains(header, LaxAttribute) then ReplaceAll(header, LaxAttribute, NoneAttribute)
    else if !Contains(header, AnyAttribute) then header + "; " + NoneAttribute
    else header
  }

  /** The response's headers, which the hook edits in place. */
  class ResponseHeaders {
    var items: seq<Header>

    constructor (items: seq<Header>)
      ensures this.items == items
    {
      this.items := items;
    }

    /** `headers.pop(key, None)`, for the lower-cased name `ikey`:
        every header under the name goes. */
    method Pop(ikey: string)
      modifies this
      ensures items == Without(old(items), ikey)
    {
      items := Without(items, ikey);
    }

    /** `headers.add(key, value)`: a new header at the end. */
    method Add(key: string, value: string)
      modifies this
      ensures items == old(items) + [Header(key, value)]
    {
      items := items + [Header(key, value)];
    }
  }

  /** The loop that builds `new_cookie_headers`, one rewritten value per
      cookie, in order. */
  method RewriteCookies(cookies: seq<string>) returns (out: seq<string>)
    ensures |out| == |cookies|
    ensures forall i :: 0 <= i < |cookies| ==> out[i] == RewriteCookie(cookies[i])
  {
    out := [];
    var i := 0;
    while i < |cookies|
      invariant 0 <= i <= |cookies| && |out| == i
      invariant forall k :: 0 <= k < i ==> out[k] == RewriteCookie(cookies[k])
    {
      out := out + [RewriteCookie(cookies[i])];
      i := i + 1;
    }
  }

  /** The loop that adds the rewritten headers back, one by one. */
  method AddAll(response: ResponseHeaders, name: string, values: seq<string>)
    modifies response
    ensures response.items == old(response.items) + AllNamed(name, values)
  {
    var i := 0;
    while i < |values|
      invariant 0 <= i <= |values|
      invariant response.items == old(response.items) + AllNamed(name, values[..i])
    {
      assert values[..i + 1][..i] == values[..i];
      response.Add(name, values[i]);
      i := i + 1;
    }
    assert values[..|values|] == values;
  }

  /** `set_cookie_attributes`: the Set-Cookie headers are taken out and
      added back, rewritten, after all the other headers. */
  method SetCookieAttributes(response: ResponseHeaders)
    modifies response
    ensures var cookies := GetList(old(response.items), SetCookieKey);
      response.items == Without(old(response.items), SetCookieKey) + AllNamed(SetCookie, MapRewrite(cookies))
  {
    var cookies := GetList(response.items, SetCookieKey);
    var rewritten := RewriteCookies(cookies);
    MapRewriteIs(cookies, rewritten);
    response.Pop(SetCookieKey);
    AddAll(response, SetCookie, rewritten);
  }

  /** Every value rewritten, in order. */
  function MapRewrite(values: seq<string>): (r: seq<string>)
    ensures |r| == |values|
  {
    if values == [] then [] else MapRewrite(values[..|values| - 1]) + [RewriteCookie(values[|values| - 1])]
  }

  lemma {:induction false} MapRewriteIs(values: seq<string>, out: seq<string>)
    requires |out| == |values| && forall i :: 0 <= i < |values| ==> out[i] == RewriteCookie(values[i])
    ensures MapRewrite(values) == out
  {
    if values != [] {
      var n := |values| - 1;
      MapRewriteIs(values[..n], out[..n]);
      assert out == out[..n] + [out[n]];
    }
  }

  /** The Set-Cookie headers of the result are those of the response, as
      many and in the same order, each rewritten. */
  lemma CookiesKeptInOrder(items: seq<Header>)
    ensures var after := Without(items, SetCookieKey) + AllNamed(SetCookie, MapRewrite(GetList(items, SetCookieKey)));
      && GetList(after, SetCookieKey) == MapRewrite(GetList(items, SetCookieKey))
      && Without(after, SetCookieKey) == Without(items, SetCookieKey)
  {
    var kept := Without(items, SetCookieKey);
    var values := MapRewrite(GetList(items, SetCookieKey));
    NoneLeft(items, SetCookieKey);
    AddedNamed(kept, SetCookie, SetCookieKey, values);
  }

  /** Nothing under the name is left after it is popped. */
  lemma {:induction false} NoneLeft(items: seq<Header>, ikey: string)
    ensures GetList(Without(items, ikey), ikey) == []
    ensures Without(Without(items, ikey), ikey) == Without(items, ikey)
  {
    if items != [] {
      var n := |items| - 1;
      NoneLeft(items[..n], ikey);
      var w := Without(items[..n], ikey);
      if !Named(items[n], ikey) {
        assert (w + [items[n]])[..|w|] == w;
      }
    }
  }

  /** Headers added under the name after a list with none of them: they
      are all the name's values, and taking them out gives back the list. */
  lemma {:induction false} AddedNamed(kept: seq<Header>, name: string, ikey: string, values: seq<string>)
    requires Lower(name) == ikey
    requires GetList(kept, ikey) == [] && Without(kept, ikey) == kept
    ensures GetList(kept + AllNamed(name, values), ikey) == values
    ensures Without(kept + AllNamed(name, values), ikey) == kept
  {
    if values == [] {
      assert kept + [] == kept;
    } else {
      var n := |values| - 1;
      AddedNamed(kept, name, ikey, values[..n]);
      var before := kept + AllNamed(name, values[..n]);
      var last := Header(name, values[n]);
      assert kept + AllNamed(name, values) == before + [last];
      assert (before + [last])[..|before|] == before;
      assert values == values[..n] + [values[n]];
    }
  }

  /** The other headers keep their values and their order. */
  lemma {:induction false} OthersKept(items: seq<Header>, ikey: string)
    ensures forall h :: h in Without(items, ikey) ==> h in items && !Named(h, ikey)
  {
    if items != [] {
      OthersKept(items[..|items| - 1], ikey);
    }
  }

  // ---------------------------------------------------------------------
  // The three cases of the rewrite

  /** `rep + rest` holds the text `rep` starts with. */
  lemma ContainsPrefix(s: string, p: string)
    requires StartsWith(s, p)
    ensures Contains(s, p)
  {
    assert OccursAt(s, p, 0);
  }

  lemma {:induction false} ContainsTail(s: string, t: string, p: string)
    requires Contains(t, p)
    ensures Contains(s + t, p)
  {
    var i :| 0 <= i <= |t| - |p| && OccursAt(t, p, i);
    assert (s + t)[|s| + i..|s| + i + |p|] == t[i..i + |p|];
    assert OccursAt(s + t, p, |s| + i);
  }

  /** Replacing a pattern that occurs leaves the replacement in the text. */
  lemma {:induction false} ReplacementPresent(s: string, pat: string, rep: string)
    requires |pat| > 0 && Contains(s, pat)
    ensures Contains(ReplaceAll(s, pat, rep), rep)
    decreases |s|
  {
    var r := ReplaceAll(s, pat, rep);
    if s[..|pat|] == pat {
      assert r == rep + ReplaceAll(s[|pat|..], pat, rep);
      ContainsPrefix(r, rep);
    } else {
      var i :| 0 <= i <= |s| - |pat| && OccursAt(s, pat, i);
      assert i != 0;
      var t := s[1..];
      assert t[i - 1..i - 1 + |pat|] == s[i..i + |pat|];
      assert OccursAt(t, pat, i - 1);
      ReplacementPresent(t, pat, rep);
      ContainsTail([s[0]], ReplaceAll(t, pat, rep), rep);
    }
  }

  /** Whatever the cookie, its rewrite carries a lower-case 'samesite='
      attribute. */
  lemma RewriteHasSameSite(header: string)
    ensures Contains(RewriteCookie(header), AnyAttribute)
  {
    var r := RewriteCookie(header);
    if Contains(header, LaxAttribute) {
      ReplacementPresent(header, LaxAttribute, NoneAttribute);
      var i :| 0 <= i <= |r| - |NoneAttribute| && OccursAt(r, NoneAttribute, i);
      assert r[i..i + |AnyAttribute|] == NoneAttribute[..|AnyAttribute|];
      assert OccursAt(r, AnyAttribute, i);
    } else if !Contains(header, AnyAttribute) {
      assert r == (header + "; ") + NoneAttribute;
      ContainsPrefix(NoneAttribute, AnyAttribute);
      ContainsTail(header + "; ", NoneAttribute, AnyAttribute);
    }
  }

  /** A value without 'samesite=' gets the attribute appended and keeps
      the rest of its text. */
  lemma AppendedWhenAbsent(header: string)
    requires !Contains(header, AnyAttribute)
    ensures RewriteCookie(header) == header + "; samesite=None"
  {
    if Contains(header, LaxAttribute) {
      var i :| 0 <= i <= |header| - |LaxAttribute| && OccursAt(header, LaxAttribute, i);
      assert header[i..i + |AnyAttribute|] == LaxAttribute[..|AnyAttribute|];
      assert OccursAt(header, AnyAttribute, i);
    }
  }

  /** A value with another SameSite value, such as 'samesite=Strict', is
      left as it is. */
  lemma OtherValueUnchanged(header: string)
    requires Contains(header, AnyAttribute) && !Contains(header, LaxAttribute)
    ensures RewriteCookie(header) == header
  {
  }

  /** The test is case-sensitive: 'SameSite=Lax' is not rewritten but
      gets a second, lower-case attribute after it. */
  lemma MixedCaseGetsSecondAttribute()
    ensures RewriteCookie("SameSite=Lax") == "SameSite=Lax; samesite=None"
  {
    var h := "SameSite=Lax";
    forall i | 0 <= i <= |h| - |AnyAttribute|
      ensures !OccursAt(h, AnyAttribute, i)
    {
      assert h[i] != 's';
      assert h[i..i + |AnyAttribute|][0] == h[i];
    }
    AppendedWhenAbsent(h);
  }
}
