/** Shared vocabulary: optional values and the string primitives that the
    Python and JavaScript sources take from their standard libraries
    (substring search, ASCII case folding, whitespace trimming). */
module Common {

  datatype Option<+T> = None | Some(value: T) {
    function GetOr(default: T): T {
      match this
      case Some(v) => v
      case None => default
    }
  }

  /** Seconds in a day: `timedelta(days=1)` on integer timestamps. */
  const Day := 86400

  /** A value or the message of the error that replaced it. */
  datatype Result<+T> = Ok(value: T) | Err(msg: string)

  /** A handler's answer: the HTTP status and the JSON body. */
  datatype Response = Response(status: int, body: map<string, Json>)

  function ErrorReply(status: int, error: string): Response {
    Response(status, map["error" := JStr(error)])
  }

  /** The text of an exception, which the model does not track. */
  const ExceptionText := "<exception>"

  /** f"{context}: {str(e)}", the message a handler builds from an
      exception it caught. */
  function Failure(context: string): string {
    context + ": " + ExceptionText
  }

  /** A JSON value as Python's json module and JavaScript's JSON.parse
      produce it; numbers are integers here. */
  datatype Json = JNull | JBool(b: bool) | JInt(n: int) | JStr(s: string)
                | JArr(items: seq<Json>) | JObj(fields: map<string, Json>)

  /** Python's truth value: None, False, 0, "", [] and {} are false. */
  predicate PyTruthy(j: Json) {
    match j
    case JNull => false
    case JBool(b) => b
    case JInt(n) => n != 0
    case JStr(s) => s != ""
    case JArr(items) => items != []
    case JObj(fields) => fields != map[]
  }

  /** JavaScript's truth value: null, false, 0 and "" are false; every
      array and object is true. */
  predicate JsTruthy(j: Json) {
    match j
    case JNull => false
    case JBool(b) => b
    case JInt(n) => n != 0
    case JStr(s) => s != ""
    case JArr(_) => true
    case JObj(_) => true
  }

  /** Python's `d.get(key)` on a dict, JavaScript's `o[key]` on an object:
      None when the key is absent. */
  function Get(m: map<string, Json>, key: string): (r: Option<Json>)
    ensures r.Some? <==> key in m
    ensures r.Some? ==> r.value == m[key]
  {
    if key in m then Some(m[key]) else None
  }

  /** Python's `d.get(key, default)`. */
  function GetOr(m: map<string, Json>, key: string, default: Json): (r: Json)
    ensures key in m ==> r == m[key]
    ensures key !in m ==> r == default
  {
    if key in m then m[key] else default
  }

  /** Python's len(): defined for strings, lists and dicts, a TypeError
      (None here) for the other JSON values. */
  function PyLen(j: Json): (r: Option<nat>)
    ensures r.Some? <==> j.JStr? || j.JArr? || j.JObj?
  {
    match j
    case JStr(s) => Some(|s|)
    case JArr(items) => Some(|items|)
    case JObj(fields) => Some(|fields|)
    case _ => None
  }

  /** The ASCII characters JavaScript's String.prototype.trim() removes. */
  predicate IsJsSpace(c: char) {
    c == ' ' || c == '\t' || c == '\n' || c == '\r' || c == '\U{000B}' || c == '\U{000C}'
  }

  /** The ASCII characters Python's str.strip() and int() treat as
      whitespace: JavaScript's six plus the separators U+001C..U+001F. */
  predicate IsPySpace(c: char) {
    IsJsSpace(c) || '\U{001C}' <= c <= '\U{001F}'
  }

  predicate IsAsciiLetter(c: char) {
    ('a' <= c <= 'z') || ('A' <= c <= 'Z')
  }

  predicate IsAsciiDigit(c: char) {
    '0' <= c <= '9'
  }

  function LowerChar(c: char): (r: char)
    ensures 'A' <= c <= 'Z' ==> r as int == c as int + 32
    ensures !('A' <= c <= 'Z') ==> r == c
  {
    if 'A' <= c <= 'Z' then (c as int + 32) as char else c
  }

  /** ASCII lower-casing, as Python's str.lower() and JavaScript's
      toLowerCase() do on ASCII text. */
  function Lower(s: string): (r: string)
    ensures |r| == |s|
    ensures forall i :: 0 <= i < |s| ==> r[i] == LowerChar(s[i])
  {
    if s == [] then [] else [LowerChar(s[0])] + Lower(s[1..])
  }

  /** `needle in hay` / `hay.includes(needle)`. */
  predicate Contains(hay: string, needle: string) {
    exists i :: 0 <= i <= |hay| - |needle| && OccursAt(hay, needle, i)
  }

  predicate OccursAt(hay: string, needle: string, i: int) {
    0 <= i && i + |needle| <= |hay| && hay[i..i + |needle|] == needle
  }

  /** `hay.startsWith(p)`. */
  predicate StartsWith(hay: string, p: string) {
    |p| <= |hay| && hay[..|p|] == p
  }

  lemma EmptyContained(hay: string)
    ensures Contains(hay, "")
  {
    assert OccursAt(hay, "", 0);
  }

  function TrimLeft(s: string, ws: char -> bool): (r: string)
    ensures |r| <= |s| && r == s[|s| - |r|..]
    ensures r != [] ==> !ws(r[0])
    ensures forall i :: 0 <= i < |s| - |r| ==> ws(s[i])
  {
    if s != [] && ws(s[0]) then
      var r := TrimLeft(s[1..], ws);
      assert forall i :: 1 <= i < |s| - |r| ==> s[i] == s[1..][i - 1];
      r
    else s
  }

  function TrimRight(s: string, ws: char -> bool): (r: string)
    ensures |r| <= |s| && r == s[..|r|]
    ensures r != [] ==> !ws(r[|r| - 1])
    ensures forall i :: |r| <= i < |s| ==> ws(s[i])
  {
    if s != [] && ws(s[|s| - 1]) then TrimRight(s[..|s| - 1], ws) else s
  }

  /** Removal of the characters `ws` accepts from both ends. */
  function Trim(s: string, ws: char -> bool): (r: string)
    ensures |r| <= |s|
    ensures r != [] ==> !ws(r[0]) && !ws(r[|r| - 1])
    ensures Contains(s, r)
  {
    var l := TrimLeft(s, ws);
    var r := TrimRight(l, ws);
    assert OccursAt(s, r, |s| - |l|);
    r
  }

  /** Python's str.strip() with no argument. */
  function Strip(s: string): (r: string)
    ensures |r| <= |s|
  {
    Trim(s, IsPySpace)
  }

  /** JavaScript's String.prototype.trim(). */
  function JsTrim(s: string): (r: string)
    ensures |r| <= |s|
  {
    Trim(s, IsJsSpace)
  }

  /** Every character is one `ws` accepts: `not s.strip()` in Python,
      `!s.trim()` or `s.trim() === ''` in JavaScript. */
  predicate IsBlank(s: string, ws: char -> bool) {
    forall i :: 0 <= i < |s| ==> ws(s[i])
  }

  lemma BlankIffTrimEmpty(s: string, ws: char -> bool)
    ensures IsBlank(s, ws) <==> Trim(s, ws) == ""
  {
    var l := TrimLeft(s, ws);
    if IsBlank(s, ws) {
      BlankTrimsAway(s, ws);
    } else {
      var i :| 0 <= i < |s| && !ws(s[i]);
      assert l != [] && !ws(l[0]);
      assert TrimRight(l, ws) != [];
    }
  }

  lemma {:induction false} BlankTrimsAway(s: string, ws: char -> bool)
    requires IsBlank(s, ws)
    ensures TrimLeft(s, ws) == []
  {
    if s != [] {
      assert IsBlank(s[1..], ws);
      BlankTrimsAway(s[1..], ws);
    }
  }

  /** Index of the first occurrence of `c`, or |s| when there is none. */
  function IndexOf(s: string, c: char): (r: nat)
    ensures r <= |s|
    ensures r < |s| ==> s[r] == c
    ensures forall k :: 0 <= k < r ==> s[k] != c
  {
    if s == [] then 0 else if s[0] == c then 0 else 1 + IndexOf(s[1..], c)
  }

  /** Index of the last occurrence of `c`, or -1 when there is none. */
  function LastIndexOf(s: string, c: char): (r: int)
    ensures -1 <= r < |s|
    ensures r >= 0 ==> s[r] == c
    ensures forall k :: r < k < |s| ==> s[k] != c
  {
    if s == [] then -1
    else if s[|s| - 1] == c then |s| - 1
    else LastIndexOf(s[..|s| - 1], c)
  }

  /** Decimal rendering of a natural number (Python's str(n), JavaScript's String(n)). */
  function NatToString(n: nat): (r: string)
    ensures |r| >= 1
  {
    if n < 10 then [('0' as int + n) as char]
    else NatToString(n / 10) + [('0' as int + n % 10) as char]
  }

  /** The rendering has digits only. */
  lemma {:induction false} NatToStringDigits(n: nat)
    ensures forall i :: 0 <= i < |NatToString(n)| ==> IsAsciiDigit(NatToString(n)[i])
  {
    if n >= 10 {
      NatToStringDigits(n / 10);
    }
  }

  function IntToString(n: int): (r: string)
    ensures |r| >= 1
  {
    if n < 0 then "-" + NatToString(-n) else NatToString(n)
  }

  /** The value Python arithmetic and comparisons see: ints, and bools as 0
      and 1; any other value raises TypeError (None here). */
  function PyNumber(j: Json): (r: Option<int>)
    ensures j.JInt? ==> r == Some(j.n)
    ensures r.Some? <==> j.JInt? || j.JBool?
  {
    match j
    case JInt(n) => Some(n)
    case JBool(b) => Some(if b then 1 else 0)
    case _ => None
  }

  /** `datetime.fromtimestamp(secs)`: the server's naive local time,
      `utcOffset` seconds ahead of UTC, held as if it were UTC. */
  function FromTimestamp(secs: int, utcOffset: int): int {
    secs + utcOffset
  }

  /** Python's floor division `a // b` for b != 0 (Dafny's `/` is Euclidean). */
  function FloorDiv(a: int, b: int): (q: int)
    requires b != 0
    ensures b > 0 ==> b * q <= a < b * q + b
    ensures b < 0 ==> b * q >= a > b * q + b
  {
    if b > 0 then a / b else (-a) / (-b)
  }

  /** Substitution of every occurrence of a (non-empty) pattern, scanning left
      to right without overlap: Python's str.replace and re.sub on a literal. */
  function ReplaceAll(s: string, pat: string, rep: string): (r: string)
    requires |pat| > 0
    decreases |s|
  {
    if |s| < |pat| then s
    else if s[..|pat|] == pat then rep + ReplaceAll(s[|pat|..], pat, rep)
    else [s[0]] + ReplaceAll(s[1..], pat, rep)
  }

  lemma {:induction false} ReplaceAllNoMatch(s: string, pat: string, rep: string)
    requires |pat| > 0
    requires !Contains(s, pat)
    ensures ReplaceAll(s, pat, rep) == s
    decreases |s|
  {
    if |s| >= |pat| {
      assert s[0..|pat|] == s[..|pat|];
      assert !OccursAt(s, pat, 0);
      if !Contains(s[1..], pat) {
        ReplaceAllNoMatch(s[1..], pat, rep);
      } else {
        var t := s[1..];
        var i :| 0 <= i <= |t| - |pat| && OccursAt(t, pat, i);
        assert t[i..i + |pat|] == pat;
        assert s[i + 1..i + 1 + |pat|] == t[i..i + |pat|];
        assert OccursAt(s, pat, i + 1);
      }
    }
  }

  /** Every element of a sequence satisfies p: Python's all(...), JavaScript's every. */
  predicate All<T>(s: seq<T>, p: T -> bool) {
    forall i :: 0 <= i < |s| ==> p(s[i])
  }

  /** `s` is `t` with some items dropped, order kept. */
  predicate Subsequence<T(==)>(s: seq<T>, t: seq<T>)
    decreases |t|
  {
    if s == [] then true
    else if t == [] then false
    else (s[0] == t[0] && Subsequence(s[1..], t[1..])) || Subsequence(s, t[1..])
  }

  function Sum(s: seq<int>): int {
    if s == [] then 0 else s[0] + Sum(s[1..])
  }

  lemma {:induction false} SumAppend(a: seq<int>, b: seq<int>)
    ensures Sum(a + b) == Sum(a) + Sum(b)
  {
    if a == [] {
      assert a + b == b;
    } else {
      assert (a + b)[1..] == a[1..] + b;
      SumAppend(a[1..], b);
    }
  }
  // ---------------------------------------------------------------------
  // Integer parsing

  function DigitValue(c: char): (d: nat)
    requires IsAsciiDigit(c)
    ensures d <= 9
  {
    c as int - '0' as int
  }

  /** The digits Python's int() accepts for base 10: ASCII digits, with
      single underscores allowed between two digits. */
  predicate IsDecimalLiteral(s: string) {
    && s != []
    && IsAsciiDigit(s[0]) && IsAsciiDigit(s[|s| - 1])
    && DigitsOrUnderscores(s)
    && forall i :: 0 <= i < |s| ==> UnderscoreThenDigit(s, i)
  }

  /** An underscore at `i` is followed by a digit. */
  predicate UnderscoreThenDigit(s: string, i: int)
    requires 0 <= i < |s|
  {
    s[i] == '_' ==> i + 1 < |s| && IsAsciiDigit(s[i + 1])
  }

  predicate DigitsOrUnderscores(s: string) {
    forall i :: 0 <= i < |s| ==> IsAsciiDigit(s[i]) || s[i] == '_'
  }

  /** The value of a run of digits, underscores ignored. */
  function DigitsValue(s: string): (n: nat)
    requires DigitsOrUnderscores(s)
  {
    if s == [] then 0
    else if s[|s| - 1] == '_' then DigitsValue(s[..|s| - 1])
    else 10 * DigitsValue(s[..|s| - 1]) + DigitValue(s[|s| - 1])
  }

  /** Python's `int(s)` for a str: surrounding whitespace, an optional sign
      and a decimal literal; None stands for the ValueError. */
  function ParsePyInt(s: string): (r: Option<int>)
    ensures r.Some? ==> Strip(s) != ""
  {
    ParseStripped(Strip(s))
  }

  /** `int()` once the surrounding whitespace is gone. */
  function ParseStripped(t: string): (r: Option<int>)
    ensures r.Some? ==> t != ""
  {
    if t == "" then None
    else
      var neg := t[0] == '-';
      var body := if t[0] == '-' || t[0] == '+' then t[1..] else t;
      if IsDecimalLiteral(body) then
        var v: int := DigitsValue(body);
        Some(if neg then -v else v)
      else None
  }

  /** Text with no whitespace at either end parses as it stands. */
  lemma ParseUnpadded(s: string)
    requires s != [] && !IsPySpace(s[0]) && !IsPySpace(s[|s| - 1])
    ensures ParsePyInt(s) == ParseStripped(s)
  {
    StripNothing(s);
  }

  lemma {:induction false} NatToStringValue(n: nat)
    ensures IsDecimalLiteral(NatToString(n)) && DigitsValue(NatToString(n)) == n
  {
    var s := NatToString(n);
    NatToStringDigits(n);
    if n >= 10 {
      NatToStringValue(n / 10);
      var p := NatToString(n / 10);
      assert s[..|s| - 1] == p;
    }
  }

  /** `int(str(n)) == n`: the decimal rendering `s` of `n` parses back. */
  lemma ParseIntToString(n: int, s: string)
    requires s == IntToString(n)
    ensures ParsePyInt(s) == Some(n)
  {
    if n < 0 {
      NatToStringValue(-n);
      ParseNegatedNat(-n, NatToString(-n));
    } else {
      NatToStringValue(n);
      ParsePlainLiteral(NatToString(n));
    }
  }

  /** `int()` of a minus sign and the decimal rendering `d` of `m`. */
  lemma ParseNegatedNat(m: nat, d: string)
    requires d == NatToString(m) && IsDecimalLiteral(d)
    ensures ParsePyInt("-" + d) == Some(-(DigitsValue(d) as int))
  {
    ParseMinusLiteral(d);
  }

  /** `int()` of a minus sign and a decimal literal, with nothing around. */
  lemma ParseMinusLiteral(d: string)
    requires IsDecimalLiteral(d)
    ensures ParsePyInt("-" + d) == Some(-(DigitsValue(d) as int))
  {
    var s := "-" + d;
    assert s[0] == '-' && s[|s| - 1] == d[|d| - 1];
    ParseUnpadded(s);
    assert s[1..] == d;
  }

  /** `int()` of a decimal literal with nothing around. */
  lemma ParsePlainLiteral(d: string)
    requires IsDecimalLiteral(d)
    ensures ParsePyInt(d) == Some(DigitsValue(d) as int)
  {
    assert d[0] != '-' && d[0] != '+';
    ParseUnpadded(d);
  }

  /** An optional sign and a run of ASCII digits, read as an integer.
      This is the text SQLite's INTEGER affinity turns into an integer
      when it is written to an INTEGER column or compared with one (other
      text stays text), and the integer text JavaScript's `Number` reads. */
  function SignedDecimal(s: string): (r: Option<int>)
    ensures r.Some? ==> s != [] && (IsAsciiDigit(s[0]) || s[0] == '-' || s[0] == '+')
  {
    if s == [] then None
    else
      var body := if s[0] == '-' || s[0] == '+' then s[1..] else s;
      if body != [] && forall i :: 0 <= i < |body| ==> IsAsciiDigit(body[i]) then
        var v: int := DigitsValue(body);
        Some(if s[0] == '-' then -v else v)
      else None
  }

  /** The decimal text of an integer is taken as that integer. */
  lemma SignedDecimalOfString(n: int)
    ensures SignedDecimal(IntToString(n)) == Some(n)
  {
    var d := NatToString(if n < 0 then -n else n);
    NatToStringDigits(if n < 0 then -n else n);
    NatToStringValue(if n < 0 then -n else n);
    if n < 0 {
      assert IntToString(n)[1..] == d;
    } else {
      assert d[0] != '-' && d[0] != '+';
    }
  }

  /** The text a String or Text column holds for a bound value: a
      string itself, an int as its decimal text, a bool as "1" or "0"
      (Python's sqlite3 binds a bool as an integer and TEXT affinity
      turns it into text). None for NULL, which is no text, and for a
      list or dict, which cannot be bound. */
  function SqliteText(j: Json): (r: Option<string>)
    ensures r.Some? <==> j.JStr? || j.JInt? || j.JBool?
  {
    match j
    case JStr(s) => Some(s)
    case JInt(n) => Some(IntToString(n))
    case JBool(b) => Some(if b then "1" else "0")
    case _ => None
  }

  /** What a String or Text column holds after the insert: None is
      NULL; a number or bool is kept as its text (SQLite binds a bool as
      1 or 0); a list or dict cannot be bound, and the outer None is that
      exception. */
  function TextCell(j: Json): (r: Option<Option<string>>)
    ensures r.None? <==> j.JArr? || j.JObj?
    ensures j.JNull? ==> r == Some(None)
    ensures j.JStr? ==> r == Some(Some(j.s))
    ensures j.JInt? ==> r == Some(Some(IntToString(j.n)))
    ensures j.JBool? ==> r == Some(Some(if j.b then "1" else "0"))
  {
    if j.JNull? then Some(None) else if SqliteText(j).Some? then Some(SqliteText(j)) else None
  }

  /** The value SQLAlchemy's Boolean type lets through its strict check:
      True, False, 0 and 1; anything else raises. NULL is left to the
      caller. */
  function SqliteBool(j: Json): (r: Option<bool>)
    ensures j.JBool? ==> r == Some(j.b)
    ensures r.Some? ==> j.JBool? || j == JInt(0) || j == JInt(1)
  {
    match j
    case JBool(b) => Some(b)
    case JInt(n) => if n == 0 then Some(false) else if n == 1 then Some(true) else None
    case _ => None
  }

  /** An int written to a text column reads back, under INTEGER affinity,
      as the same int. */
  lemma SqliteTextOfInteger(n: int)
    ensures SqliteText(JInt(n)).Some? && SignedDecimal(SqliteText(JInt(n)).value) == Some(n)
  {
    SignedDecimalOfString(n);
  }

  /** How Python's `int(value)` ends for a JSON value. */
  datatype IntOutcome = IntOk(n: int) | ValueError | TypeError

  function PyIntOf(j: Json): (r: IntOutcome)
    ensures j.JInt? ==> r == IntOk(j.n)
    ensures r.TypeError? <==> !(j.JInt? || j.JBool? || j.JStr?)
  {
    match j
    case JInt(n) => IntOk(n)
    case JBool(b) => IntOk(if b then 1 else 0)
    case JStr(s) => (match ParsePyInt(s) case Some(n) => IntOk(n) case None => ValueError)
    case _ => TypeError
  }

  /** The longest prefix of ASCII digits. */
  function DigitPrefix(s: string): (p: string)
    ensures |p| <= |s| && p == s[..|p|]
    ensures forall i :: 0 <= i < |p| ==> IsAsciiDigit(p[i])
    ensures |p| < |s| ==> !IsAsciiDigit(s[|p|])
  {
    if s != [] && IsAsciiDigit(s[0]) then [s[0]] + DigitPrefix(s[1..]) else []
  }

  /** JavaScript's `parseInt(s, 10)`: leading whitespace, an optional sign,
      then as many digits as there are; None stands for NaN. */
  function JsParseInt(s: string): (r: Option<int>) {
    SignedDigitPrefix(TrimLeft(s, IsJsSpace))
  }

  /** An optional sign and the longest run of digits after it. */
  function SignedDigitPrefix(t: string): (r: Option<int>) {
    var neg := t != [] && t[0] == '-';
    var body := if t != [] && (t[0] == '-' || t[0] == '+') then t[1..] else t;
    var digits := DigitPrefix(body);
    if digits == [] then None
    else
      var v: int := DigitsValue(digits);
      Some(if neg then -v else v)
  }

  /** `parseInt(String(n), 10) === n`, and trailing text after the digits is
      ignored. */
  lemma JsParseIntToString(n: int, suffix: string)
    requires suffix == [] || !IsAsciiDigit(suffix[0])
    ensures JsParseInt(IntToString(n) + suffix) == Some(n)
  {
    var s := IntToString(n) + suffix;
    SignedDigitsOfString(n, suffix);
    TrimLeftNothing(s, IsJsSpace);
  }

  predicate IsHexDigit(c: char) {
    IsAsciiDigit(c) || 'a' <= c <= 'f' || 'A' <= c <= 'F'
  }

  function HexDigitValue(c: char): (d: nat)
    requires IsHexDigit(c)
    ensures d <= 15
  {
    if IsAsciiDigit(c) then DigitValue(c)
    else if 'a' <= c <= 'f' then c as int - 'a' as int + 10
    else c as int - 'A' as int + 10
  }

  /** The longest prefix of hexadecimal digits. */
  function HexPrefix(s: string): (p: string)
    ensures |p| <= |s| && p == s[..|p|]
    ensures forall i :: 0 <= i < |p| ==> IsHexDigit(p[i])
  {
    if s != [] && IsHexDigit(s[0]) then [s[0]] + HexPrefix(s[1..]) else []
  }

  function HexValue(s: string): (n: nat)
    requires forall i :: 0 <= i < |s| ==> IsHexDigit(s[i])
  {
    if s == [] then 0 else 16 * HexValue(s[..|s| - 1]) + HexDigitValue(s[|s| - 1])
  }

  /** The text after the sign starts with "0x" or "0X". */
  predicate HexMarked(body: string) {
    |body| >= 2 && body[0] == '0' && (body[1] == 'x' || body[1] == 'X')
  }

  /** JavaScript's `parseInt(s)` with no radix: as `parseInt(s, 10)`,
      except that "0x" or "0X" after the sign makes the digits after it
      hexadecimal. */
  function JsParseIntAnyRadix(s: string): (r: Option<int>) {
    var t := TrimLeft(s, IsJsSpace);
    var neg := t != [] && t[0] == '-';
    var body := if t != [] && (t[0] == '-' || t[0] == '+') then t[1..] else t;
    if HexMarked(body) then
      var digits := HexPrefix(body[2..]);
      if digits == [] then None
      else
        var v: int := HexValue(digits);
        Some(if neg then -v else v)
    else SignedDigitPrefix(t)
  }

  /** `parseInt(String(n)) === n`: the decimal text of an integer is never
      read as hexadecimal. */
  lemma JsParseIntAnyRadixOfString(n: int)
    ensures JsParseIntAnyRadix(IntToString(n)) == Some(n)
  {
    var s := IntToString(n);
    assert s + [] == s;
    SignedDigitsOfString(n, []);
    TrimLeftNothing(s, IsJsSpace);
    var m: nat := if n < 0 then -n else n;
    NatToStringDigits(m);
    var body := if s[0] == '-' || s[0] == '+' then s[1..] else s;
    assert body == NatToString(m);
    assert !HexMarked(body);
    JsParseIntToString(n, []);
  }

  /** Text without surrounding whitespace is its own strip(). */
  lemma StripNothing(s: string)
    requires s != [] && !IsPySpace(s[0]) && !IsPySpace(s[|s| - 1])
    ensures Strip(s) == s
  {
    TrimLeftNothing(s, IsPySpace);
    TrimRightNothing(s, IsPySpace);
  }

  lemma TrimRightNothing(s: string, ws: char -> bool)
    requires s != [] && !ws(s[|s| - 1])
    ensures TrimRight(s, ws) == s
  {
  }

  lemma TrimLeftNothing(s: string, ws: char -> bool)
    requires s != [] && !ws(s[0])
    ensures TrimLeft(s, ws) == s
  {
  }

  lemma SignedDigitsOfString(n: int, suffix: string)
    requires suffix == [] || !IsAsciiDigit(suffix[0])
    ensures var s := IntToString(n) + suffix; s[0] == '-' || IsAsciiDigit(s[0])
    ensures SignedDigitPrefix(IntToString(n) + suffix) == Some(n)
  {
    var m: nat := if n < 0 then -n else n;
    var d := NatToString(m);
    NatToStringValue(m);
    NatToStringDigits(m);
    if n < 0 {
      assert IntToString(n) + suffix == "-" + (d + suffix);
      NegativeDigitsOf(d, suffix);
    } else {
      assert IntToString(n) + suffix == d + suffix && d[0] == (d + suffix)[0];
      PlainDigitsOf(d, suffix);
    }
  }

  /** A minus sign, a run of digits and text that does not start with a
      digit: the negated value of the digits. */
  lemma NegativeDigitsOf(d: string, suffix: string)
    requires d != [] && DigitsOrUnderscores(d) && forall i :: 0 <= i < |d| ==> IsAsciiDigit(d[i])
    requires suffix == [] || !IsAsciiDigit(suffix[0])
    ensures SignedDigitPrefix("-" + (d + suffix)) == Some(-(DigitsValue(d) as int))
  {
    var s := "-" + (d + suffix);
    DigitPrefixOf(d, suffix);
    assert s[1..] == d + suffix;
    MinusThenDigits(s, d);
  }

  /** A run of digits and text that does not start with a digit: the
      value of the digits. */
  lemma PlainDigitsOf(d: string, suffix: string)
    requires d != [] && DigitsOrUnderscores(d) && forall i :: 0 <= i < |d| ==> IsAsciiDigit(d[i])
    requires suffix == [] || !IsAsciiDigit(suffix[0])
    ensures SignedDigitPrefix(d + suffix) == Some(DigitsValue(d) as int)
  {
    var s := d + suffix;
    DigitPrefixOf(d, suffix);
    assert s[0] == d[0];
    DigitsFirst(s, d);
  }

  /** The text after a minus sign starts with the digits `d`. */
  lemma MinusThenDigits(s: string, d: string)
    requires s != [] && s[0] == '-' && DigitPrefix(s[1..]) == d && d != []
    ensures SignedDigitPrefix(s) == Some(-(DigitsValue(d) as int))
  {
    var digits := DigitPrefix(s[1..]);
    assert digits == d;
  }

  /** The text starts with the digits `d`. */
  lemma DigitsFirst(s: string, d: string)
    requires s != [] && IsAsciiDigit(s[0]) && DigitPrefix(s) == d && d != []
    ensures SignedDigitPrefix(s) == Some(DigitsValue(d) as int)
  {
    var digits := DigitPrefix(s);
    assert digits == d;
  }

  lemma {:induction false} DigitPrefixOf(d: string, suffix: string)
    requires forall i :: 0 <= i < |d| ==> IsAsciiDigit(d[i])
    requires suffix == [] || !IsAsciiDigit(suffix[0])
    ensures DigitPrefix(d + suffix) == d
  {
    if d != [] {
      assert (d + suffix)[1..] == d[1..] + suffix;
      DigitPrefixOf(d[1..], suffix);
    }
  }

  // ---------------------------------------------------------------------
  // Python's str() of a JSON value

  /** Python's str(): None, True/False, decimal integers and strings as they
      are; a list shows the repr of its items. The text of a dict depends on
      its key order, which a map does not keep, so it is a fixed stand-in. */
  function PyStr(j: Json): (r: string)
    ensures j.JStr? ==> r == j.s
    ensures j.JInt? ==> r == IntToString(j.n)
    ensures j.JNull? ==> r == "None"
  {
    match j
    case JNull => "None"
    case JBool(b) => if b then "True" else "False"
    case JInt(n) => IntToString(n)
    case JStr(s) => s
    case JArr(items) => "[" + JoinReprs(items) + "]"
    case JObj(_) => "{...}"
  }

  /** Python's repr() of a list item: strings are quoted (without escaping). */
  function PyRepr(j: Json): string
    decreases j, 1
  {
    match j
    case JStr(s) => "'" + s + "'"
    case JArr(items) => "[" + JoinReprs(items) + "]"
    case JObj(_) => "{...}"
    case JNull => "None"
    case JBool(b) => if b then "True" else "False"
    case JInt(n) => IntToString(n)
  }

  function JoinReprs(items: seq<Json>): string
    decreases items, 0
  {
    if items == [] then ""
    else if |items| == 1 then PyRepr(items[0])
    else PyRepr(items[0]) + ", " + JoinReprs(items[1..])
  }
}
