/** backend_v2/app/utils/helpers.py: password strength, "time ago" buckets,
    filename sanitising and pagination arithmetic. */
module V2Helpers {
  import opened Common

  // ---------------------------------------------------------------------
  // validate_password_strength

  datatype Strength = Strength(ok: bool, message: string)

  const TooShort := "Hasło musi mieć co najmniej 6 znaków"
  const NoLetter := "Hasło musi zawierać co najmniej jedną literę"
  const NoDigit := "Hasło musi zawierać co najmniej jedną cyfrę"
  const StrongEnough := "Hasło jest wystarczająco silne"

  predicate HasLetter(p: string) {
    exists i :: 0 <= i < |p| && IsAsciiLetter(p[i])
  }

  predicate HasDigit(p: string) {
    exists i :: 0 <= i < |p| && IsAsciiDigit(p[i])
  }

  /** The three checks in their order; the first that fails gives the message. */
  function ValidatePasswordStrength(p: string): (r: Strength)
    ensures r.ok <==> |p| >= 6 && HasLetter(p) && HasDigit(p)
    ensures |p| < 6 ==> r.message == TooShort
    ensures |p| >= 6 && !HasLetter(p) ==> r.message == NoLetter
    ensures |p| >= 6 && HasLetter(p) && !HasDigit(p) ==> r.message == NoDigit
    ensures r.ok ==> r.message == StrongEnough
  {
    if |p| < 6 then Strength(false, TooShort)
    else if !HasLetter(p) then Strength(false, NoLetter)
    else if !HasDigit(p) then Strength(false, NoDigit)
    else Strength(true, StrongEnough)
  }

  // ---------------------------------------------------------------------
  // calculate_time_ago (whole seconds; `now` is a parameter)

  datatype TimeAgo = JustNow | MinutesAgo(minutes: int) | HoursAgo(hours: int)
                   | DaysAgo(days: int) | FormattedDate(at: int)

  /** None gives None; otherwise the age in seconds picks the bucket. */
  function CalculateTimeAgo(dt: Option<int>, now: int): (r: Option<TimeAgo>)
    ensures dt.None? <==> r.None?
  {
    match dt
    case None => None
    case Some(t) =>
      var seconds := now - t;
      if seconds < 60 then Some(JustNow)
      else if seconds < 3600 then Some(MinutesAgo(seconds / 60))
      else if seconds < 86400 then Some(HoursAgo(seconds / 3600))
      else if seconds < 2592000 then Some(DaysAgo(seconds / 86400))
      else Some(FormattedDate(t))
  }

  /** Each bucket covers exactly its range of ages, and the reported count
      is the number of whole units elapsed. */
  lemma TimeAgoBuckets(t: int, now: int)
    ensures var r := CalculateTimeAgo(Some(t), now).value;
      && (r.JustNow? <==> now - t < 60)
      && (r.MinutesAgo? <==> 60 <= now - t < 3600)
      && (r.HoursAgo? <==> 3600 <= now - t < 86400)
      && (r.DaysAgo? <==> 86400 <= now - t < 2592000)
      && (r.FormattedDate? <==> now - t >= 2592000)
      && (r.MinutesAgo? ==> 1 <= r.minutes <= 59 && 60 * r.minutes <= now - t < 60 * r.minutes + 60)
      && (r.HoursAgo? ==> 1 <= r.hours <= 23 && 3600 * r.hours <= now - t < 3600 * r.hours + 3600)
      && (r.DaysAgo? ==> 1 <= r.days <= 29 && 86400 * r.days <= now - t < 86400 * r.days + 86400)
  {
  }

  /** The text the source returns for each bucket. */
  function TimeAgoText(r: TimeAgo, formatted: string): (text: string)
    ensures r.JustNow? ==> text == "przed chwilą"
    ensures r.MinutesAgo? ==> text == IntToString(r.minutes) + " min temu"
    ensures r.FormattedDate? ==> text == formatted
  {
    match r
    case JustNow => "przed chwilą"
    case MinutesAgo(m) => IntToString(m) + " min temu"
    case HoursAgo(h) => IntToString(h) + " godz. temu"
    case DaysAgo(d) => IntToString(d) + " dni temu"
    case FormattedDate(_) => formatted
  }

  // ---------------------------------------------------------------------
  // sanitize_filename

  predicate Dangerous(c: char) {
    c == '<' || c == '>' || c == ':' || c == '"' || c == '/' || c == '\\' || c == '|' || c == '?' || c == '*'
  }

  function ReplaceDangerous(s: string): (r: string)
    ensures |r| == |s|
    ensures forall i :: 0 <= i < |s| ==> r[i] == (if Dangerous(s[i]) then '_' else s[i])
  {
    if s == [] then [] else [if Dangerous(s[0]) then '_' else s[0]] + ReplaceDangerous(s[1..])
  }

  /** The substitution, then truncation of names longer than 255 characters:
      split at the last '.', keep 250 characters of the name part and re-attach
      a non-empty extension (so a long extension can make the result longer
      than 255). */
  function SanitizeFilename(filename: string): (r: string)
    ensures |filename| <= 255 ==> r == ReplaceDangerous(filename)
    ensures forall i :: 0 <= i < |r| ==> !Dangerous(r[i])
  {
    var f := ReplaceDangerous(filename);
    if |f| <= 255 then f
    else
      var r := Shorten(f);
      assert forall i :: 0 <= i < |r| ==> r[i] in f;
      r
  }

  /** The truncation of a long name, on the already substituted text. */
  function Shorten(f: string): (r: string)
    ensures forall i :: 0 <= i < |r| ==> r[i] in f
  {
    var dot := LastIndexOf(f, '.');
    if dot < 0 then (if |f| <= 250 then f else f[..250])
    else
      var name := f[..dot];
      var ext := f[dot + 1..];
      assert f[dot] in f;
      (if |name| <= 250 then name else name[..250]) + (if ext != "" then "." + ext else "")
  }

  /** Short names keep their length; every safe character stays where it was
      and every dangerous one becomes '_'. */
  lemma ShortFilenamePreserved(filename: string)
    requires |filename| <= 255
    ensures |SanitizeFilename(filename)| == |filename|
    ensures forall i :: 0 <= i < |filename| && !Dangerous(filename[i]) ==>
      SanitizeFilename(filename)[i] == filename[i]
    ensures forall i :: 0 <= i < |filename| && Dangerous(filename[i]) ==>
      SanitizeFilename(filename)[i] == '_'
  {
  }

  /** How a long name is truncated. */
  lemma LongFilenameTruncated(filename: string)
    requires |filename| > 255
    ensures var f := ReplaceDangerous(filename);
      var dot := LastIndexOf(f, '.');
      && (dot < 0 ==> SanitizeFilename(filename) == f[..250])
      && (0 <= dot < |f| - 1 ==>
            SanitizeFilename(filename) == (if dot <= 250 then f[..dot] else f[..250]) + "." + f[dot + 1..])
      && (dot == |f| - 1 ==> SanitizeFilename(filename) == f[..if dot <= 250 then dot else 250])
      && (dot < 0 || dot == |f| - 1 ==> |SanitizeFilename(filename)| <= 250)
  {
    ShortenCases(ReplaceDangerous(filename));
  }

  lemma ShortenCases(f: string)
    requires |f| > 255
    ensures var dot := LastIndexOf(f, '.');
      && (dot < 0 ==> Shorten(f) == f[..250])
      && (0 <= dot < |f| - 1 ==> Shorten(f) == (if dot <= 250 then f[..dot] else f[..250]) + "." + f[dot + 1..])
      && (dot == |f| - 1 ==> Shorten(f) == f[..if dot <= 250 then dot else 250])
  {
    var dot := LastIndexOf(f, '.');
    if 0 <= dot < |f| - 1 {
      NamePart(f, dot);
      assert f[dot + 1..] != "";
    } else if dot == |f| - 1 {
      NamePart(f, dot);
      assert f[dot + 1..] == "";
    }
  }

  /** The name part a '.' at `dot` leaves after truncation to 250 characters. */
  lemma NamePart(f: string, dot: int)
    requires 0 <= dot < |f|
    ensures (if |f[..dot]| <= 250 then f[..dot] else f[..dot][..250]) == f[..if dot <= 250 then dot else 250]
  {
    if dot > 250 {
      assert f[..dot][..250] == f[..250];
    }
  }

  /** Counter-example to "the result never exceeds 255 characters": a
      300-character name whose only '.' is at index 10 keeps all of its
      289-character extension. */
  lemma LongExtensionExceedsLimit()
    ensures var f := "abcdefghij." + seq(289, _ => 'x');
      |SanitizeFilename(f)| == 300
  {
    var f := "abcdefghij." + seq(289, _ => 'x');
    var g := ReplaceDangerous(f);
    assert g == f;
    assert g[10] == '.';
    assert forall k :: 10 < k < |g| ==> g[k] != '.';
    assert LastIndexOf(g, '.') == 10;
  }

  /** The evidently intended limit: the name as the source sanitises it,
      cut to 255 characters when a long extension left it longer. Every
      name the source already keeps within the limit is unchanged. */
  function SanitizeFilenameBounded(filename: string): (r: string)
    ensures |r| <= 255
    ensures forall i :: 0 <= i < |r| ==> !Dangerous(r[i])
    ensures |SanitizeFilename(filename)| <= 255 ==> r == SanitizeFilename(filename)
    ensures |filename| <= 255 ==> r == ReplaceDangerous(filename)
  {
    var s := SanitizeFilename(filename);
    if |s| <= 255 then s else s[..255]
  }

  /** The name of LongExtensionExceedsLimit comes back at the limit. */
  lemma LongExtensionBounded()
    ensures |SanitizeFilenameBounded("abcdefghij." + seq(289, _ => 'x'))| == 255
  {
    LongExtensionExceedsLimit();
  }

  // ---------------------------------------------------------------------
  // paginate_query (the query is the sequence of rows it would return)

  /** `items` is None where the offset or the limit is negative: what the
      database then returns is not part of this model. */
  datatype Page<T> = Page(items: Option<seq<T>>, total: nat, pages: int, page: int, perPage: int,
                          hasPrev: bool, hasNext: bool, prevNum: Option<int>, nextNum: Option<int>)

  datatype PageResult<T> = Paged(p: Page<T>) | ZeroDivision

  /** The rows `query.offset(offset).limit(limit)` yields, for a non-negative
      offset and limit. */
  function Window<T>(rows: seq<T>, offset: nat, limit: nat): (w: seq<T>)
    ensures |w| <= limit
    ensures forall k :: 0 <= k < |w| ==> offset + k < |rows| && w[k] == rows[offset + k]
    ensures |w| == if offset >= |rows| then 0 else if limit <= |rows| - offset then limit else |rows| - offset
  {
    if offset >= |rows| then [] else if limit <= |rows| - offset then rows[offset..offset + limit] else rows[offset..]
  }

  /** `(total + per_page - 1) // per_page`, the source's ceiling division. */
  function PageCount(total: nat, pp: int): (pages: int)
    requires pp != 0
    ensures pp > 0 ==> (pages - 1) * pp < total <= pages * pp
  {
    var q := FloorDiv(total + pp - 1, pp);
    assert pp > 0 ==> pp * q <= total + pp - 1 < pp * q + pp;
    q
  }

  function Offset(page: int, pp: int): (offset: nat)
    requires page >= 1 && pp > 0
  {
    (page - 1) * pp
  }

  /** per_page is capped by max_per_page; a capped per_page of 0 makes the
      ceiling division raise ZeroDivisionError. */
  function PaginateQuery<T>(rows: seq<T>, page: int, perPage: int, maxPerPage: int): (r: PageResult<T>)
    ensures var pp := if perPage <= maxPerPage then perPage else maxPerPage;
      (r.ZeroDivision? <==> pp == 0) &&
      (r.Paged? ==>
        && r.p.perPage == pp
        && r.p.total == |rows|
        && (pp > 0 ==> (r.p.pages - 1) * pp < |rows| <= r.p.pages * pp)
        && (r.p.hasPrev <==> page > 1)
        && (r.p.hasNext <==> page < r.p.pages)
        && r.p.prevNum == (if page > 1 then Some(page - 1) else None)
        && r.p.nextNum == (if page < r.p.pages then Some(page + 1) else None)
        && (r.p.items.Some? <==> page >= 1 && pp > 0)
        && (r.p.items.Some? ==>
              && r.p.items.value == Window(rows, Offset(page, pp), pp)
              && |r.p.items.value| <= pp
              && forall k :: 0 <= k < |r.p.items.value| ==>
                   Offset(page, pp) + k < |rows| && r.p.items.value[k] == rows[Offset(page, pp) + k]))
  {
    var pp := if perPage <= maxPerPage then perPage else maxPerPage;
    if pp == 0 then ZeroDivision
    else
      // for a positive per_page the offset is non-negative exactly when page >= 1
      var items := if page >= 1 && pp > 0 then Some(Window(rows, Offset(page, pp), pp)) else None;
      var pages := PageCount(|rows|, pp);
      var hasPrev := page > 1;
      var hasNext := page < pages;
      Paged(Page(items, |rows|, pages, page, pp, hasPrev, hasNext,
                 if hasPrev then Some(page - 1) else None,
                 if hasNext then Some(page + 1) else None))
  }

  /** Pages partition the rows: each row sits on exactly one page, at the
      position the offset arithmetic predicts. */
  lemma RowOnItsPage<T>(rows: seq<T>, perPage: nat, i: nat)
    requires perPage >= 1 && i < |rows|
    ensures var r := PaginateQuery(rows, i / perPage + 1, perPage, perPage);
      r.Paged? && r.p.items.Some? && i % perPage < |r.p.items.value| && r.p.items.value[i % perPage] == rows[i]
  {
    var page := i / perPage + 1;
    assert Offset(page, perPage) + i % perPage == i;
  }
}
