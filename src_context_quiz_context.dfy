/** src/context/QuizContext.jsx: the client's own list of quizzes, kept in
    React state and mirrored to localStorage under 'quizzes'. Every
    operation builds a new list from the previous one; the model's
    functions take the previous list and give the next. A list item is a
    value parsed from JSON, and `quiz.id` raises on a null item, which makes
    the whole update raise: None below. */
module QuizStore {
  import opened Common
  import opened JsArrays

  const MissingQuiz := "Quiz not found"

  /** The initial state: `[...JSON.parse(saved)]` when localStorage holds
      something, [] when it holds nothing. Spreading a list copies it, a
      string gives its characters; anything else is not iterable and
      raises (None). */
  function InitialQuizzes(saved: Option<Json>): (r: Option<seq<Json>>)
    ensures saved.None? ==> r == Some([])
    ensures r.Some? && saved.Some? && saved.value.JArr? ==> r.value == saved.value.items
    ensures r.Some? && saved.Some? && saved.value.JStr? ==>
      |r.value| == |saved.value.s| && forall i :: 0 <= i < |r.value| ==> r.value[i] == JStr([saved.value.s[i]])
    ensures r.None? <==> saved.Some? && !saved.value.JArr? && !saved.value.JStr?
  {
    match saved
    case None => Some([])
    case Some(JArr(items)) => Some(items)
    case Some(JStr(s)) => Some(seq(|s|, i requires 0 <= i < |s| => JStr([s[i]])))
    case Some(_) => None
  }

  /** The id `addQuiz` gives: `user-${Date.now()}`. */
  function UserId(now: int): Json {
    JStr("user-" + IntToString(now))
  }

  /** addQuiz: one quiz more, at the end, with the caller's fields and the
      generated id in place of any id it had. */
  function AddQuiz(prev: seq<Json>, quiz: map<string, Json>, now: int): (r: seq<Json>)
    ensures |r| == |prev| + 1 && r[..|prev|] == prev
    ensures r[|prev|].JObj? && r[|prev|].fields.Keys == quiz.Keys + {"id"}
    ensures r[|prev|].fields["id"] == UserId(now)
    ensures forall k :: k in quiz && k != "id" ==> r[|prev|].fields[k] == quiz[k]
  {
    prev + [JObj(quiz + map["id" := UserId(now)])]
  }

  /** `{ ...updatedQuiz, id }`: the replacement for a quiz with the id. */
  function Replacement(updated: map<string, Json>, id: Json): (r: Json)
    ensures r.JObj? && r.fields.Keys == updated.Keys + {"id"} && r.fields["id"] == id
    ensures forall k :: k in updated && k != "id" ==> r.fields[k] == updated[k]
  {
    JObj(updated + map["id" := id])
  }

  /** updateQuiz: every quiz with the id becomes the replacement, every
      other stays, in place. */
  function UpdateQuiz(prev: seq<Json>, id: Json, updated: map<string, Json>): (r: Option<seq<Json>>)
    ensures r.Some? <==> NoNull(prev)
    ensures r.Some? ==> |r.value| == |prev|
    ensures r.Some? ==> forall i :: 0 <= i < |prev| ==>
      r.value[i] == if HasId(prev[i], Some(id)) then Replacement(updated, id) else prev[i]
  {
    if prev == [] then Some([])
    else
      var init := prev[..|prev| - 1];
      var last := prev[|prev| - 1];
      assert forall i :: 0 <= i < |init| ==> prev[i] == init[i];
      match UpdateQuiz(init, id, updated)
      case None => None
      case Some(rest) =>
        if last.JNull? then None
        else Some(rest + [if HasId(last, Some(id)) then Replacement(updated, id) else last])
  }

  /** `quiz.id !== id`: the items deleteQuiz keeps. */
  predicate Kept(q: Json, id: Json) {
    !HasId(q, Some(id))
  }

  /** deleteQuiz: the quizzes without the id, in their order. */
  function DeleteQuiz(prev: seq<Json>, id: Json): (r: Option<seq<Json>>)
    ensures r.Some? <==> NoNull(prev)
    ensures r.Some? ==> forall i :: 0 <= i < |r.value| ==> Kept(r.value[i], id)
  {
    if prev == [] then Some([])
    else
      match DeleteQuiz(prev[1..], id)
      case None => None
      case Some(rest) =>
        if prev[0].JNull? then None
        else
          assert forall i :: 1 <= i < |prev| ==> prev[i] == prev[1..][i - 1];
          Some((if Kept(prev[0], id) then [prev[0]] else []) + rest)
  }

  /** getQuiz: the first quiz with the id (Value), none (Undefined), or the
      TypeError of a null met first (Raises). */
  function GetQuiz(qs: seq<Json>, id: Json): (r: Prop)
    ensures r.Value? <==> Find(qs, Some(id)).At?
    ensures r.Value? ==> r.v == qs[Find(qs, Some(id)).i] && HasId(r.v, Some(id))
    ensures r.Undefined? <==> forall i :: 0 <= i < |qs| ==> PassedOver(qs[i], Some(id))
  {
    match Find(qs, Some(id))
    case At(i) => Value(qs[i])
    case Absent => Undefined
    case Threw(_) => Raises
  }

  /** `quiz.timeLimit || 30`. */
  function TimePerQuestion(quiz: map<string, Json>): (r: Json)
    ensures "timeLimit" in quiz && JsTruthy(quiz["timeLimit"]) ==> r == quiz["timeLimit"]
    ensures !("timeLimit" in quiz && JsTruthy(quiz["timeLimit"])) ==> r == JInt(30)
  {
    if "timeLimit" in quiz && JsTruthy(quiz["timeLimit"]) then quiz["timeLimit"] else JInt(30)
  }

  /** getQuizById: the quiz with `timePerQuestion` added, or the rejection
      "Quiz not found" when no quiz has the id. */
  function GetQuizById(qs: seq<Json>, id: Json): (r: Result<map<string, Json>>)
    ensures r.Ok? <==> Find(qs, Some(id)).At?
    ensures Find(qs, Some(id)).Absent? ==> r == Err(MissingQuiz)
    ensures r.Ok? ==> var q := qs[Find(qs, Some(id)).i];
      && q.JObj?
      && r.value.Keys == q.fields.Keys + {"timePerQuestion"}
      && r.value["timePerQuestion"] == TimePerQuestion(q.fields)
      && forall k :: k in q.fields && k != "timePerQuestion" ==> r.value[k] == q.fields[k]
  {
    match GetQuiz(qs, id)
    case Value(q) => Ok(q.fields + map["timePerQuestion" := TimePerQuestion(q.fields)])
    case Undefined => Err(MissingQuiz)
    case Raises => Err(ExceptionText)
  }

  // ---------------------------------------------------------------------
  // How the operations compose

  /** The added quiz is what getQuiz then finds under the generated id,
      unless an older quiz already has that id. */
  lemma AddThenGet(prev: seq<Json>, quiz: map<string, Json>, now: int)
    requires forall i :: 0 <= i < |prev| ==> PassedOver(prev[i], Some(UserId(now)))
    ensures var after := AddQuiz(prev, quiz, now);
      GetQuiz(after, UserId(now)) == Value(after[|prev|])
  {
    var after := AddQuiz(prev, quiz, now);
    assert forall i :: 0 <= i < |prev| ==> after[i] == prev[i];
    FindIsFirst(after, Some(UserId(now)), |prev|);
  }

  /** After updateQuiz of a quiz that exists, getQuiz of the id gives the
      replacement. */
  lemma UpdateThenGet(prev: seq<Json>, id: Json, updated: map<string, Json>)
    requires NoNull(prev) && Find(prev, Some(id)).At?
    ensures GetQuiz(UpdateQuiz(prev, id, updated).value, id) == Value(Replacement(updated, id))
  {
    var after := UpdateQuiz(prev, id, updated).value;
    var i := Find(prev, Some(id)).i;
    assert HasId(after[i], Some(id));
    forall j | 0 <= j < i
      ensures PassedOver(after[j], Some(id))
    {
      assert PassedOver(prev[j], Some(id));
    }
    FindIsFirst(after, Some(id), i);
  }

  /** Updating twice with the same quiz changes nothing more. */
  lemma UpdateIdempotent(prev: seq<Json>, id: Json, updated: map<string, Json>)
    requires NoNull(prev)
    ensures var once := UpdateQuiz(prev, id, updated).value;
      UpdateQuiz(once, id, updated) == Some(once)
  {
    var once := UpdateQuiz(prev, id, updated).value;
    assert NoNull(once);
    var twice := UpdateQuiz(once, id, updated).value;
    forall i | 0 <= i < |prev|
      ensures twice[i] == once[i]
    {
      if HasId(prev[i], Some(id)) {
        assert HasId(once[i], Some(id));
      }
    }
  }

  /** deleteQuiz keeps exactly the quizzes without the id: as many of each
      as before, and none with it. */
  lemma {:induction false} DeleteKeepsOthers(prev: seq<Json>, id: Json, x: Json)
    requires NoNull(prev)
    ensures multiset(DeleteQuiz(prev, id).value)[x] == if Kept(x, id) then multiset(prev)[x] else 0
  {
    if prev != [] {
      DeleteKeepsOthers(prev[1..], id, x);
      assert prev == [prev[0]] + prev[1..];
      assert NoNull(prev[1..]) by {
        assert forall i :: 1 <= i < |prev| ==> prev[i] == prev[1..][i - 1];
      }
    }
  }

  /** deleteQuiz keeps the order of what it keeps. */
  lemma {:induction false} DeleteKeepsOrder(prev: seq<Json>, id: Json)
    requires NoNull(prev)
    ensures Subsequence(DeleteQuiz(prev, id).value, prev)
  {
    if prev != [] {
      assert NoNull(prev[1..]) by {
        assert forall i :: 1 <= i < |prev| ==> prev[i] == prev[1..][i - 1];
      }
      DeleteKeepsOrder(prev[1..], id);
      var rest := DeleteQuiz(prev[1..], id).value;
      if Kept(prev[0], id) {
        assert ([prev[0]] + rest)[1..] == rest;
      } else {
        assert DeleteQuiz(prev, id).value == rest;
        SubsequenceOfTail(rest, prev);
      }
    }
  }

  lemma SubsequenceOfTail(s: seq<Json>, t: seq<Json>)
    requires t != [] && Subsequence(s, t[1..])
    ensures Subsequence(s, t)
  {
  }

  /** After deleteQuiz no quiz has the id, and deleting again changes
      nothing. */
  lemma DeleteThenGet(prev: seq<Json>, id: Json)
    requires NoNull(prev)
    ensures var after := DeleteQuiz(prev, id).value;
      GetQuiz(after, id) == Undefined && DeleteQuiz(after, id) == Some(after)
  {
    var after := DeleteQuiz(prev, id).value;
    KeptGoesThrough(prev, id);
    FindFromNone(after, Some(id), 0);
    DeleteOfKept(after, id);
  }

  /** What deleteQuiz keeps is no null. */
  lemma {:induction false} KeptGoesThrough(prev: seq<Json>, id: Json)
    requires NoNull(prev)
    ensures NoNull(DeleteQuiz(prev, id).value)
    ensures forall i :: 0 <= i < |DeleteQuiz(prev, id).value| ==> PassedOver(DeleteQuiz(prev, id).value[i], Some(id))
  {
    if prev != [] {
      assert NoNull(prev[1..]) by {
        assert forall i :: 1 <= i < |prev| ==> prev[i] == prev[1..][i - 1];
      }
      KeptGoesThrough(prev[1..], id);
    }
  }

  /** A list where every quiz is kept is its own deletion. */
  lemma {:induction false} DeleteOfKept(qs: seq<Json>, id: Json)
    requires NoNull(qs) && forall i :: 0 <= i < |qs| ==> Kept(qs[i], id)
    ensures DeleteQuiz(qs, id) == Some(qs)
  {
    if qs != [] {
      assert forall i :: 1 <= i < |qs| ==> qs[i] == qs[1..][i - 1];
      DeleteOfKept(qs[1..], id);
      assert qs == [qs[0]] + qs[1..];
    }
  }
}
