/** backend/utils/helpers.py: the XSS input sanitiser and the e-mail
    validator. The two regular expressions are written out as explicit
    scanning functions; each has an independent description beside it and a
    lemma tying the two together. */
module BackendHelpers {
  import opened Common

  /** What `sanitize_input` can be given: None, a str, or any other value,
      represented here by the text `str(value)` produces for it. */
  datatype Input = Null | Text(s: string) | Other(repr: string)

  /** The `Input` a decoded JSON value is: its str() text when it is
      neither None nor a string. */
  function InputOf(j: Json): (x: Input)
    ensures j.JNull? <==> x.Null?
    ensures j.JStr? ==> x == Text(j.s)
    ensures !j.JNull? ==> SanitizeInput(x) == Some(Clean(PyStr(j)))
  {
    match j
    case JNull => Null
    case JStr(s) => Text(s)
    case _ => Other(PyStr(j))
  }

  /** `sanitize_input`: None stays None; anything else is turned into text,
      stripped, cleared of `<script…>…</script>` blocks and then of every
      `<…>` span. */
  function SanitizeInput(x: Input): (r: Option<string>)
    ensures x.Null? <==> r.None?
    ensures r.Some? ==> NoTagLeft(r.value)
    ensures x.Text? && !HasAngle(x.s) ==> r == Some(Strip(x.s))
  {
    match x
    case Null => None
    case Text(s) => Some(Clean(s))
    case Other(repr) => Some(Clean(repr))
  }

  /** The three steps for one string, in the source's order. */
  function Clean(s: string): (r: string)
    ensures NoTagLeft(r)
    ensures !HasAngle(s) ==> r == Strip(s)
  {
    var u := RemoveScripts(Strip(s));
    StripTagsNoPair(u);
    CleanWithoutAngles(s);
    StripTags(u)
  }

  lemma CleanWithoutAngles(s: string)
    ensures !HasAngle(s) ==> StripTags(RemoveScripts(Strip(s))) == Strip(s)
  {
    if !HasAngle(s) {
      var t := Strip(s);
      StripKeepsChars(s);
      RemoveScriptsIdentity(t);
      StripTagsIdentity(t);
    }
  }

  predicate HasAngle(s: string) {
    exists i :: 0 <= i < |s| && s[i] == '<'
  }

  /** No '<' in `s` is followed, anywhere later, by a '>'. */
  predicate NoTagLeft(s: string) {
    forall i, j :: 0 <= i < j < |s| && s[i] == '<' ==> s[j] != '>'
  }

  lemma StripKeepsChars(s: string)
    ensures forall i :: 0 <= i < |Strip(s)| ==> Strip(s)[i] in s
  {
    var r := Strip(s);
    var k :| 0 <= k <= |s| - |r| && OccursAt(s, r, k);
    forall i | 0 <= i < |r| ensures r[i] in s {
      assert r[i] == s[k + i];
    }
  }

  // ---------------------------------------------------------------------
  // re.sub(r'<script.*?>.*?</script>', '', s, flags=IGNORECASE | DOTALL)

  /** Case-insensitive (ASCII) occurrence of `pat` at index i of s. */
  predicate OccursAtCI(s: string, pat: string, i: int) {
    0 <= i && i + |pat| <= |s| && Lower(s[i..i + |pat|]) == pat
  }

  /** The smallest k >= from at which `pat` occurs case-insensitively, or
      |s| when there is none. */
  function FindCI(s: string, pat: string, from: nat): (k: nat)
    requires from <= |s|
    ensures from <= k <= |s|
    ensures k < |s| ==> OccursAtCI(s, pat, k)
    ensures forall m :: from <= m < k ==> !OccursAtCI(s, pat, m)
    decreases |s| - from
  {
    if from == |s| then |s|
    else if OccursAtCI(s, pat, from) then from
    else FindCI(s, pat, from + 1)
  }

  /** The smallest k >= from with s[k] == c, or |s|. */
  function FindChar(s: string, c: char, from: nat): (k: nat)
    requires from <= |s|
    ensures from <= k <= |s|
    ensures k < |s| ==> s[k] == c
    ensures forall m :: from <= m < k ==> s[m] != c
    decreases |s| - from
  {
    if from == |s| then |s|
    else if s[from] == c then from
    else FindChar(s, c, from + 1)
  }

  /** Length of the script block the pattern matches at the start of s, or 0
      when it does not match there. The lazy `.*?>` stops at the first '>'
      after "<script"; the lazy `.*?</script>` then stops at the first
      closing tag after that '>'; when no closing tag follows the first '>',
      none follows a later one either, so there is no match. */
  function ScriptMatchLen(s: string): (n: nat)
    ensures n == 0 || 16 <= n <= |s|
  {
    if !OccursAtCI(s, "<script", 0) then 0
    else
      var j := FindChar(s, '>', 7);
      if j == |s| then 0
      else
        var k := FindCI(s, "</script>", j + 1);
        if k == |s| then 0 else k + 9
  }

  function RemoveScripts(s: string): (r: string)
    ensures |r| <= |s|
    ensures forall i :: 0 <= i < |r| ==> r[i] in s
    decreases |s|
  {
    if s == [] then []
    else
      var n := ScriptMatchLen(s);
      if n > 0 then
        var rest := RemoveScripts(s[n..]);
        assert forall i :: 0 <= i < |rest| ==> rest[i] in s by {
          forall i | 0 <= i < |rest| ensures rest[i] in s {
            assert rest[i] in s[n..];
          }
        }
        rest
      else
        var rest := RemoveScripts(s[1..]);
        assert forall i :: 0 <= i < |rest| ==> rest[i] in s by {
          forall i | 0 <= i < |rest| ensures rest[i] in s {
            assert rest[i] in s[1..];
          }
        }
        [s[0]] + rest
  }

  lemma {:induction false} RemoveScriptsIdentity(s: string)
    requires forall i :: 0 <= i < |s| ==> s[i] != '<'
    ensures RemoveScripts(s) == s
    decreases |s|
  {
    if s != [] {
      if |s| >= 7 { assert Lower(s[0..7])[0] == LowerChar(s[0]); }
      RemoveScriptsIdentity(s[1..]);
    }
  }

  // ---------------------------------------------------------------------
  // re.sub(r'<.*?>', '', s, flags=IGNORECASE | DOTALL)

  /** Each '<' that has a '>' somewhere after it is deleted together with
      everything up to and including the first such '>'; any other character
      is kept. */
  function StripTags(s: string): (r: string)
    ensures |r| <= |s|
    decreases |s|
  {
    if s == [] then []
    else if s[0] == '<' && FindChar(s, '>', 1) < |s| then
      StripTags(s[FindChar(s, '>', 1) + 1..])
    else [s[0]] + StripTags(s[1..])
  }

  lemma {:induction false} StripTagsSubset(s: string)
    ensures forall c :: c in StripTags(s) ==> c in s
    decreases |s|
  {
    if s != [] {
      if s[0] == '<' && FindChar(s, '>', 1) < |s| {
        var j := FindChar(s, '>', 1);
        StripTagsSubset(s[j + 1..]);
        forall c | c in StripTags(s) ensures c in s {
          assert c in s[j + 1..];
        }
      } else {
        StripTagsSubset(s[1..]);
        forall c | c in StripTags(s) ensures c in s {
          if c != s[0] { assert c in StripTags(s[1..]); assert c in s[1..]; }
        }
      }
    }
  }

  /** The property the second substitution guarantees: no '<' of the result
      has a '>' after it. */
  lemma {:induction false} StripTagsNoPair(s: string)
    ensures NoTagLeft(StripTags(s))
    decreases |s|
  {
    if s != [] {
      if s[0] == '<' && FindChar(s, '>', 1) < |s| {
        StripTagsNoPair(s[FindChar(s, '>', 1) + 1..]);
      } else {
        var rest := StripTags(s[1..]);
        StripTagsNoPair(s[1..]);
        var r := [s[0]] + rest;
        if s[0] == '<' {
          // no '>' after the leading '<' in s, hence none in rest
          StripTagsSubset(s[1..]);
          assert forall m :: 1 <= m < |s| ==> s[m] != '>';
          assert '>' !in s[1..];
          assert '>' !in rest;
        }
        forall i, j | 0 <= i < j < |r| && r[i] == '<' ensures r[j] != '>' {
          if i == 0 {
            if s[0] == '<' { assert r[j] == rest[j - 1]; }
          } else {
            assert r[i] == rest[i - 1] && r[j] == rest[j - 1];
          }
        }
      }
    }
  }

  lemma {:induction false} StripTagsIdentity(s: string)
    requires forall i :: 0 <= i < |s| ==> s[i] != '<'
    ensures StripTags(s) == s
    decreases |s|
  {
    if s != [] {
      StripTagsIdentity(s[1..]);
    }
  }

  // ---------------------------------------------------------------------
  // validate_email: `not email` rejects, then
  // re.match(r'^[a-zA-Z0-9._%+-]+@[a-zA-Z0-9.-]+\.[a-zA-Z]{2,}$', email)

  predicate LocalChar(c: char) {
    IsAsciiLetter(c) || IsAsciiDigit(c) || c == '.' || c == '_' || c == '%' || c == '+' || c == '-'
  }

  predicate DomainChar(c: char) {
    IsAsciiLetter(c) || IsAsciiDigit(c) || c == '.' || c == '-'
  }

  predicate AllChars(s: string, lo: int, hi: int, p: char -> bool)
    requires 0 <= lo <= hi <= |s|
  {
    forall k :: lo <= k < hi ==> p(s[k])
  }

  /** The regular expression's reading of s with '@' at index `at` and the
      final '.' at index `dot`: a non-empty local part, '@', a non-empty
      domain, '.', and at least two letters running to the end. */
  predicate PatternSplit(s: string, at: int, dot: int) {
    && 0 < at && at + 1 < dot && dot + 3 <= |s|
    && AllChars(s, 0, at, LocalChar)
    && s[at] == '@'
    && AllChars(s, at + 1, dot, DomainChar)
    && s[dot] == '.'
    && AllChars(s, dot + 1, |s|, IsAsciiLetter)
  }

  /** The whole string matches the pattern (between ^ and a $ at the very end). */
  ghost predicate MatchesPattern(s: string) {
    exists at, dot :: PatternSplit(s, at, dot)
  }

  /** A direct check: the first '@' ends the local part, and the domain
      is split at its last '.'. */
  predicate EmailShape(s: string) {
    var at := IndexOf(s, '@');
    at < |s| &&
    var dot := at + 1 + LastIndexOf(s[at + 1..], '.');
    && PatternSplit(s, at, dot)
  }

  lemma EmailShapeMatchesPattern(s: string)
    ensures EmailShape(s) <==> MatchesPattern(s)
  {
    if MatchesPattern(s) {
      var at, dot :| PatternSplit(s, at, dot);
      // '@' is neither a local nor a domain character, so `at` is the first '@'
      assert IndexOf(s, '@') == at;
      var t := s[at + 1..];
      var l := LastIndexOf(t, '.');
      // letters are not '.', so `dot` is the last '.'
      assert t[dot - at - 1] == '.';
      assert l == dot - at - 1;
    }
  }

  /** `validate_email`: None and "" are rejected; otherwise the pattern
      decides. Python's `$` also matches just before a final "\n", so a
      valid address followed by one newline is accepted too. */
  function ValidateEmail(email: Option<string>): (ok: bool)
    ensures email.None? || email == Some("") ==> !ok
    ensures email.Some? && EmailShape(email.value) ==> ok
  {
    match email
    case None => false
    case Some(s) =>
      s != "" &&
      (EmailShape(s) || (s[|s| - 1] == '\n' && EmailShape(s[..|s| - 1])))
  }

  lemma ValidateEmailIffPattern(s: string)
    ensures ValidateEmail(Some(s)) <==>
      (MatchesPattern(s) || (s != "" && s[|s| - 1] == '\n' && MatchesPattern(s[..|s| - 1])))
  {
    EmailShapeMatchesPattern(s);
    if s != "" { EmailShapeMatchesPattern(s[..|s| - 1]); }
  }

  function CountChar(s: string, c: char): (n: nat)
    ensures n <= |s|
  {
    if s == [] then 0 else (if s[0] == c then 1 else 0) + CountChar(s[1..], c)
  }

  lemma {:induction false} CountCharZero(s: string, c: char, lo: int)
    requires 0 <= lo <= |s|
    requires forall k :: lo <= k < |s| ==> s[k] != c
    ensures CountChar(s[lo..], c) == 0
    decreases |s| - lo
  {
    if lo < |s| {
      assert s[lo..][1..] == s[lo + 1..];
      CountCharZero(s, c, lo + 1);
    }
  }

  lemma {:induction false} CountCharSplit(s: string, c: char, at: int)
    requires 0 <= at < |s| && s[at] == c
    requires forall k :: 0 <= k < at ==> s[k] != c
    ensures CountChar(s, c) == 1 + CountChar(s[at + 1..], c)
    decreases at
  {
    if at > 0 {
      CountCharSplit(s[1..], c, at - 1);
      assert s[1..][at..] == s[at + 1..];
    }
  }

  lemma ShapeHasOneAt(b: string)
    requires EmailShape(b)
    ensures CountChar(b, '@') == 1
  {
    var at := IndexOf(b, '@');
    var dot := at + 1 + LastIndexOf(b[at + 1..], '.');
    assert PatternSplit(b, at, dot);
    assert forall k :: at + 1 <= k < |b| ==> b[k] != '@' by {
      forall k | at + 1 <= k < |b| ensures b[k] != '@' {
        if k < dot { assert DomainChar(b[k]); }
        else if k > dot { assert IsAsciiLetter(b[k]); }
      }
    }
    CountCharSplit(b, '@', at);
    CountCharZero(b, '@', at + 1);
  }

  lemma {:induction false} CountCharAppendOther(b: string, c: char, d: char)
    requires d != c
    ensures CountChar(b + [d], c) == CountChar(b, c)
  {
    if b == [] {
      assert CountChar([d], c) == (if d == c then 1 else 0) + CountChar([], c);
    } else {
      assert (b + [d])[1..] == b[1..] + [d];
      CountCharAppendOther(b[1..], c, d);
    }
  }

  /** An accepted address holds exactly one '@'. */
  lemma ValidEmailHasOneAt(s: string)
    requires ValidateEmail(Some(s))
    ensures CountChar(s, '@') == 1
  {
    if EmailShape(s) {
      ShapeHasOneAt(s);
    } else {
      var b := s[..|s| - 1];
      ShapeHasOneAt(b);
      assert s == b + ['\n'];
      CountCharAppendOther(b, '@', '\n');
    }
  }

  /** The trailing-newline leniency of Python's `$`. */
  lemma NewlineSuffixAccepted(s: string)
    requires MatchesPattern(s)
    ensures ValidateEmail(Some(s + "\n"))
  {
    EmailShapeMatchesPattern(s);
    assert (s + "\n")[..|s + "\n"| - 1] == s;
  }
}
