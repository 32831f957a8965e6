/** src/pages/HomePage.jsx: the quiz list of the home page and its
    notifications. The list shown is built from the store's quizzes in
    three steps, each a pure function here: a copy sorted newest first,
    every quiz with its display fields, and the quizzes the search text and
    the category let through. A quiz is the object parsed from JSON. */
module HomePage {
  import opened Common

  type Quiz = map<string, Json>

  const Easy := "Łatwy"
  const Medium := "Średni"
  const Hard := "Trudny"

  // ---------------------------------------------------------------------
  // sortedQuizzes

  /** Newest first: no quiz is followed by a newer one. `time` is
      `new Date(q.createdAt)` in milliseconds. */
  predicate NewestFirst<T>(qs: seq<T>, time: T -> int) {
    forall i, j :: 0 <= i < j < |qs| ==> time(qs[i]) >= time(qs[j])
  }

  /** Puts `x` before the first item that is not newer, so that among
      quizzes of the same time the earlier stays first. */
  function Insert<T(==)>(x: T, sorted: seq<T>, time: T -> int): (r: seq<T>)
    ensures multiset(r) == multiset(sorted) + multiset{x}
  {
    if sorted == [] || time(sorted[0]) <= time(x) then
      [x] + sorted
    else
      assert sorted == [sorted[0]] + sorted[1..];
      [sorted[0]] + Insert(x, sorted[1..], time)
  }

  /** Inserting keeps a list newest first. */
  lemma {:induction false} InsertKeepsOrder<T>(x: T, sorted: seq<T>, time: T -> int)
    requires NewestFirst(sorted, time)
    ensures NewestFirst(Insert(x, sorted, time), time)
  {
    if sorted != [] && time(sorted[0]) > time(x) {
      var rest := Insert(x, sorted[1..], time);
      assert NewestFirst(sorted[1..], time) by {
        forall i, j | 0 <= i < j < |sorted| - 1
          ensures time(sorted[1..][i]) >= time(sorted[1..][j])
        {
          assert sorted[1..][i] == sorted[i + 1] && sorted[1..][j] == sorted[j + 1];
        }
      }
      InsertKeepsOrder(x, sorted[1..], time);
      InsertBounded(x, sorted[1..], time, time(sorted[0]));
      var r := Insert(x, sorted, time);
      assert r == [sorted[0]] + rest;
      forall i, j | 0 <= i < j < |r|
        ensures time(r[i]) >= time(r[j])
      {
        assert r[j] == rest[j - 1];
        if i > 0 {
          assert r[i] == rest[i - 1];
        }
      }
    }
  }

  /** Inserting below a bound keeps every item below it. */
  lemma {:induction false} InsertBounded<T>(x: T, sorted: seq<T>, time: T -> int, b: int)
    requires time(x) <= b && forall i :: 0 <= i < |sorted| ==> time(sorted[i]) <= b
    ensures forall k :: 0 <= k < |Insert(x, sorted, time)| ==> time(Insert(x, sorted, time)[k]) <= b
  {
    if sorted != [] && time(sorted[0]) > time(x) {
      assert forall i :: 0 <= i < |sorted| - 1 ==> sorted[1..][i] == sorted[i + 1];
      InsertBounded(x, sorted[1..], time, b);
      var r := Insert(x, sorted, time);
      assert forall k :: 1 <= k < |r| ==> r[k] == Insert(x, sorted[1..], time)[k - 1];
    }
  }

  /** `[...quizzes].sort((a, b) => time(b) - time(a))`: the same quizzes,
      newest first. */
  function SortNewestFirst<T(==)>(qs: seq<T>, time: T -> int): (r: seq<T>)
    ensures multiset(r) == multiset(qs)
    ensures NewestFirst(r, time)
  {
    if qs == [] then []
    else
      assert qs == [qs[0]] + qs[1..];
      InsertKeepsOrder(qs[0], SortNewestFirst(qs[1..], time), time);
      Insert(qs[0], SortNewestFirst(qs[1..], time), time)
  }

  /** A list already newest first comes back as it was: the sort moves
      nothing it need not, quizzes of the same time included. */
  lemma {:induction false} SortKeepsSorted<T>(qs: seq<T>, time: T -> int)
    requires NewestFirst(qs, time)
    ensures SortNewestFirst(qs, time) == qs
  {
    if qs != [] {
      assert NewestFirst(qs[1..], time) by {
        forall i, j | 0 <= i < j < |qs| - 1
          ensures time(qs[1..][i]) >= time(qs[1..][j])
        {
          assert qs[1..][i] == qs[i + 1] && qs[1..][j] == qs[j + 1];
        }
      }
      SortKeepsSorted(qs[1..], time);
      assert qs == [qs[0]] + qs[1..];
    }
  }

  // ---------------------------------------------------------------------
  // promotedQuizzes

  /** The difficulty as shown: 'easy' and 'medium' have their labels, and
      anything else, a missing one included, is hard. */
  function DifficultyLabel(d: Option<Json>): (r: string)
    ensures r == Easy <==> d == Some(JStr("easy"))
    ensures r == Medium <==> d == Some(JStr("medium"))
    ensures r == Hard <==> d != Some(JStr("easy")) && d != Some(JStr("medium"))
  {
    if d == Some(JStr("easy")) then Easy
    else if d == Some(JStr("medium")) then Medium
    else Hard
  }

  /** A JSON value inside a template literal: `${v}`. Items of an array
      are joined by commas, a null item as nothing. */
  function JsText(j: Json): (r: string)
    ensures j.JStr? ==> r == j.s
    ensures j.JInt? ==> r == IntToString(j.n)
    decreases j, 1
  {
    match j
    case JNull => "null"
    case JBool(b) => if b then "true" else "false"
    case JInt(n) => IntToString(n)
    case JStr(s) => s
    case JArr(items) => JoinTexts(items)
    case JObj(_) => "[object Object]"
  }

  function JoinTexts(items: seq<Json>): string
    decreases items, 0
  {
    if items == [] then ""
    else
      var first := if items[0].JNull? then "" else JsText(items[0]);
      if |items| == 1 then first else first + "," + JoinTexts(items[1..])
  }

  /** `${quiz.timeLimit || 30} s`. */
  function Duration(q: Quiz): (r: string)
    ensures "timeLimit" in q && q["timeLimit"].JInt? && q["timeLimit"].n != 0 ==> r == IntToString(q["timeLimit"].n) + " s"
    ensures !("timeLimit" in q && JsTruthy(q["timeLimit"])) ==> r == "30 s"
  {
    var limit := if "timeLimit" in q && JsTruthy(q["timeLimit"]) then q["timeLimit"] else JInt(30);
    JsText(limit) + " s"
  }

  /** A quiz with its display fields: the duration, no participants, and
      the difficulty label in place of the difficulty. */
  function Promote(q: Quiz): (r: Quiz)
    ensures r.Keys == q.Keys + {"duration", "participants", "difficulty"}
    ensures r["duration"] == JStr(Duration(q)) && r["participants"] == JInt(0)
    ensures r["difficulty"] == JStr(DifficultyLabel(Get(q, "difficulty")))
    ensures forall k :: k in q && k != "duration" && k != "participants" && k != "difficulty" ==> r[k] == q[k]
  {
    q + map["duration" := JStr(Duration(q)), "participants" := JInt(0),
            "difficulty" := JStr(DifficultyLabel(Get(q, "difficulty")))]
  }

  function PromoteAll(qs: seq<Quiz>): (r: seq<Quiz>)
    ensures |r| == |qs| && forall i :: 0 <= i < |qs| ==> r[i] == Promote(qs[i])
  {
    seq(|qs|, i requires 0 <= i < |qs| => Promote(qs[i]))
  }

  // ---------------------------------------------------------------------
  // filteredQuizzes

  /** `s.toLowerCase().includes(query.toLowerCase())` on a field; None
      when the field is no string, whose toLowerCase raises. */
  function FieldIncludes(q: Quiz, key: string, query: string): (r: Option<bool>)
    ensures r.None? <==> !(key in q && q[key].JStr?)
    ensures r == Some(true) <==> key in q && q[key].JStr? && Contains(Lower(q[key].s), Lower(query))
  {
    if key in q && q[key].JStr? then Some(Contains(Lower(q[key].s), Lower(query))) else None
  }

  /** The search condition: a blank query lets every quiz through without
      reading it; otherwise the title is read and, when it does not match,
      the difficulty. None is the TypeError of a field that is no string. */
  function MatchesSearch(q: Quiz, query: string): (r: Option<bool>)
    ensures Blank(query) ==> r == Some(true)
    ensures !Blank(query) && FieldIncludes(q, "title", query).None? ==> r.None?
    ensures !Blank(query) && FieldIncludes(q, "title", query) == Some(true) ==> r == Some(true)
    ensures !Blank(query) && FieldIncludes(q, "title", query) == Some(false) ==> r == FieldIncludes(q, "difficulty", query)
  {
    if Blank(query) then Some(true)
    else match FieldIncludes(q, "title", query)
      case None => None
      case Some(true) => Some(true)
      case Some(false) => FieldIncludes(q, "difficulty", query)
  }

  /** `!s.trim()`. */
  predicate Blank(s: string) {
    JsTrim(s) == []
  }

  /** The filter's test: the search and, when a category is chosen, the
      quiz's own category. */
  function Matches(q: Quiz, query: string, category: string): (r: Option<bool>)
    ensures r.None? <==> MatchesSearch(q, query).None?
    ensures r == Some(true) <==> MatchesSearch(q, query) == Some(true) && (category == "" || Get(q, "category") == Some(JStr(category)))
  {
    match MatchesSearch(q, query)
    case None => None
    case Some(s) => Some(s && (category == "" || Get(q, "category") == Some(JStr(category))))
  }

  /** The filter's test as the callback it is. */
  function Test(query: string, category: string): Quiz -> Option<bool> {
    q => Matches(q, query, category)
  }

  /** `qs.filter(test)`: the items the test lets through, or None when
      the test raises on one of them. */
  function Filter<T>(qs: seq<T>, test: T -> Option<bool>): (r: Option<seq<T>>)
    ensures r.Some? <==> forall i :: 0 <= i < |qs| ==> test(qs[i]).Some?
    ensures r.Some? ==> forall i :: 0 <= i < |r.value| ==> test(r.value[i]) == Some(true)
  {
    if qs == [] then Some([])
    else
      assert forall i :: 1 <= i < |qs| ==> qs[i] == qs[1..][i - 1];
      match test(qs[0])
      case None => None
      case Some(keep) =>
        match Filter(qs[1..], test)
        case None => None
        case Some(rest) => Some((if keep then [qs[0]] else []) + rest)
  }

  /** filteredQuizzes: the sorted quizzes with their display fields that
      the search and the category let through. */
  function Listing(quizzes: seq<Quiz>, time: Quiz -> int, query: string, category: string): Option<seq<Quiz>> {
    Filter(PromoteAll(SortNewestFirst(quizzes, time)), Test(query, category))
  }

  // ---------------------------------------------------------------------
  // Properties of the listing

  /** The filter keeps the order of what it keeps. */
  lemma {:induction false} FilterKeepsOrder<T>(qs: seq<T>, test: T -> Option<bool>)
    requires Filter(qs, test).Some?
    ensures Subsequence(Filter(qs, test).value, qs)
  {
    if qs != [] {
      FilterKeepsOrder(qs[1..], test);
      var rest := Filter(qs[1..], test).value;
      if test(qs[0]) == Some(true) {
        assert ([qs[0]] + rest)[1..] == rest;
      } else {
        assert Filter(qs, test).value == rest;
        assert Subsequence(rest, qs);
      }
    }
  }

  /** The filter keeps every copy of an item it lets through and none of
      the others. */
  lemma {:induction false} FilterCounts<T>(qs: seq<T>, test: T -> Option<bool>, x: T)
    requires Filter(qs, test).Some?
    ensures multiset(Filter(qs, test).value)[x] == if test(x) == Some(true) then multiset(qs)[x] else 0
  {
    if qs != [] {
      FilterCounts(qs[1..], test, x);
      assert qs == [qs[0]] + qs[1..];
    }
  }

  /** A test that lets everything through keeps the list as it is. */
  lemma {:induction false} FilterAll<T>(qs: seq<T>, test: T -> Option<bool>)
    requires forall i :: 0 <= i < |qs| ==> test(qs[i]) == Some(true)
    ensures Filter(qs, test) == Some(qs)
  {
    if qs != [] {
      assert forall i :: 1 <= i < |qs| ==> qs[i] == qs[1..][i - 1];
      FilterAll(qs[1..], test);
      assert qs == [qs[0]] + qs[1..];
    }
  }

  /** With no search text and no category every quiz is listed, in the
      sorted order. */
  lemma NoFilterListsAll(quizzes: seq<Quiz>, time: Quiz -> int, query: string)
    requires Blank(query)
    ensures Listing(quizzes, time, query, "") == Some(PromoteAll(SortNewestFirst(quizzes, time)))
  {
    FilterAll(PromoteAll(SortNewestFirst(quizzes, time)), Test(query, ""));
  }

  /** Every quiz of the store whose display form passes the test is
      listed. */
  lemma ListedIfMatching(quizzes: seq<Quiz>, time: Quiz -> int, query: string, category: string, q: Quiz)
    requires Listing(quizzes, time, query, category).Some?
    requires q in quizzes && Matches(Promote(q), query, category) == Some(true)
    ensures Promote(q) in Listing(quizzes, time, query, category).value
  {
    var sorted := SortNewestFirst(quizzes, time);
    var shown := PromoteAll(sorted);
    assert q in multiset(sorted);
    var i :| 0 <= i < |sorted| && sorted[i] == q;
    assert shown[i] == Promote(q);
    assert Promote(q) in multiset(shown);
    FilterCounts(shown, Test(query, category), Promote(q));
    assert Promote(q) in multiset(Listing(quizzes, time, query, category).value);
  }

  /** Every listed quiz is the display form of one of the store's
      quizzes. */
  lemma ListedComesFromStore(quizzes: seq<Quiz>, time: Quiz -> int, query: string, category: string, p: Quiz)
    requires Listing(quizzes, time, query, category).Some?
    requires p in Listing(quizzes, time, query, category).value
    ensures exists o :: o in quizzes && p == Promote(o)
  {
    var sorted := SortNewestFirst(quizzes, time);
    var shown := PromoteAll(sorted);
    FilterCounts(shown, Test(query, category), p);
    assert p in multiset(Listing(quizzes, time, query, category).value);
    assert p in multiset(shown);
    var i :| 0 <= i < |shown| && shown[i] == p;
    assert sorted[i] in multiset(quizzes);
  }

  /** The search text is trimmed only to decide whether it is blank: a
      title containing "sieci" does not match " sieci". */
  lemma UntrimmedQuery()
    ensures FieldIncludes(map["title" := JStr("sieci")], "title", " sieci") == Some(false)
  {
    var q: Quiz := map["title" := JStr("sieci")];
    assert |Lower(" sieci")| > |Lower("sieci")|;
  }

  /** The difficulty is searched in its label, not in the stored key:
      'easy' finds no quiz by its difficulty. */
  lemma DifficultySearchedByLabel(q: Quiz)
    requires Get(q, "difficulty") == Some(JStr("easy"))
    ensures Promote(q)["difficulty"] == JStr(Easy)
    ensures FieldIncludes(Promote(q), "difficulty", "easy") == Some(false)
  {
    var text := Lower(Easy);
    assert |text| == 5;
    assert Lower("easy") == "easy";
    forall i | 0 <= i <= |text| - 4
      ensures !OccursAt(text, "easy", i)
    {
      assert text[i..i + 4][0] == text[i];
      assert text[1] == 'a' && text[2] == 't' && text[3] == 'w' && text[4] == 'y';
    }
  }

  // ---------------------------------------------------------------------
  // Notifications

  datatype Notification = Notification(id: int, text: string, unread: bool)

  /** handleNotificationClick: the notification with the id is read, every
      other stays as it was. */
  function MarkRead(ns: seq<Notification>, id: int): (r: seq<Notification>)
    ensures |r| == |ns|
    ensures forall i :: 0 <= i < |ns| ==> r[i] == if ns[i].id == id then ns[i].(unread := false) else ns[i]
  {
    if ns == [] then []
    else
      assert forall i :: 1 <= i < |ns| ==> ns[i] == ns[1..][i - 1];
      [if ns[0].id == id then ns[0].(unread := false) else ns[0]] + MarkRead(ns[1..], id)
  }

  /** unreadNotificationsCount, the number on the badge. */
  function UnreadCount(ns: seq<Notification>): nat {
    if ns == [] then 0 else (if ns[0].unread then 1 else 0) + UnreadCount(ns[1..])
  }

  /** The unread notifications with the id. */
  function UnreadWithId(ns: seq<Notification>, id: int): nat {
    if ns == [] then 0 else (if ns[0].unread && ns[0].id == id then 1 else 0) + UnreadWithId(ns[1..], id)
  }

  /** A click takes off the badge exactly the unread notifications with
      the id. */
  lemma {:induction false} ClickLowersBadge(ns: seq<Notification>, id: int)
    ensures UnreadCount(MarkRead(ns, id)) == UnreadCount(ns) - UnreadWithId(ns, id)
  {
    if ns != [] {
      ClickLowersBadge(ns[1..], id);
      assert MarkRead(ns, id)[1..] == MarkRead(ns[1..], id);
    }
  }

  /** A second click on the same notification changes nothing. */
  lemma ClickIdempotent(ns: seq<Notification>, id: int)
    ensures MarkRead(MarkRead(ns, id), id) == MarkRead(ns, id)
  {
  }

  const InitialNotifications := [
    Notification(1, "Nowy quiz dostępny: \"Cyberbezpieczeństwo 2024\"", true),
    Notification(2, "Gratulacje! Zdobyłeś nowe osiągnięcie!", true),
    Notification(3, "Przypomnienie o quizie: \"Podstawy Sieci\"", false)]

  /** The page opens with two unread notifications; clicking the first
      leaves one on the badge, and clicking the read one leaves two. */
  lemma InitialBadge()
    ensures UnreadCount(InitialNotifications) == 2
    ensures UnreadCount(MarkRead(InitialNotifications, 1)) == 1
    ensures UnreadCount(MarkRead(InitialNotifications, 3)) == 2
  {
    ClickLowersBadge(InitialNotifications, 1);
    ClickLowersBadge(InitialNotifications, 3);
  }
}
