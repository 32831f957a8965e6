/** backend/models/quiz.py: the older Quiz model, whose questions live in
    one JSON text column. The `questions` property converts every
    question's correctAnswer with int(), when the question is read back
    and, in the caller's own question objects, when it is written.
    `json.dumps`/`json.loads` are the identity here: the column holds the
    list itself, or nothing. */
module LegacyQuizModel {
  import opened Common

  const AnswerKey := "correctAnswer"

  /** `'correctAnswer' in q` for each kind of JSON value: a key of an
      object, an item of a list, a substring of a string. None is the
      TypeError `in` raises on a number, a bool or None. */
  function HasAnswerKey(q: Json): Option<bool> {
    match q
    case JObj(f) => Some(AnswerKey in f)
    case JArr(items) => Some(JStr(AnswerKey) in items)
    case JStr(s) => Some(Contains(s, AnswerKey))
    case _ => None
  }

  /** A question whose correctAnswer, if present, is None or an int. */
  predicate IntAnswer(q: Json) {
    q.JObj? && AnswerKey in q.fields ==> q.fields[AnswerKey].JNull? || q.fields[AnswerKey].JInt?
  }

  /** One turn of the conversion loop: a present, non-None correctAnswer
      is replaced by its int(). None is the exception: int() of a value it
      rejects, or a string key into a list or string that passed `in`. */
  function Coerce(q: Json): (r: Option<Json>)
    ensures r.Some? ==> IntAnswer(r.value)
    ensures r.Some? && !q.JObj? ==> r.value == q
    ensures r.Some? && q.JObj? ==> r.value.JObj? && r.value.fields.Keys == q.fields.Keys
    ensures r.Some? && q.JObj? ==> forall k :: k in q.fields && k != AnswerKey ==> r.value.fields[k] == q.fields[k]
    ensures q.JObj? && AnswerKey in q.fields && !q.fields[AnswerKey].JNull? ==>
              (r.Some? <==> PyIntOf(q.fields[AnswerKey]).IntOk?)
    ensures r.Some? && q.JObj? && AnswerKey in q.fields && !q.fields[AnswerKey].JNull? ==>
              r.value.fields[AnswerKey] == JInt(PyIntOf(q.fields[AnswerKey]).n)
  {
    match HasAnswerKey(q)
    case None => None
    case Some(false) => Some(q)
    case Some(true) =>
      if !q.JObj? then None
      else if q.fields[AnswerKey].JNull? then Some(q)
      else match PyIntOf(q.fields[AnswerKey])
        case IntOk(n) => Some(JObj(q.fields[AnswerKey := JInt(n)]))
        case _ => None
  }

  /** Converting twice changes nothing more. */
  lemma CoerceIdempotent(q: Json)
    requires Coerce(q).Some?
    ensures Coerce(Coerce(q).value) == Coerce(q)
  {
    var c := Coerce(q).value;
    if c.JObj? && AnswerKey in c.fields && c.fields[AnswerKey].JInt? {
      assert c.fields[AnswerKey := c.fields[AnswerKey]] == c.fields;
    }
  }

  /** The whole loop: every question converted, or the exception of the
      first one that cannot be. */
  function CoerceAll(qs: seq<Json>): (r: Option<seq<Json>>)
    ensures r.Some? <==> forall i :: 0 <= i < |qs| ==> Coerce(qs[i]).Some?
    ensures r.Some? ==> |r.value| == |qs| && forall i :: 0 <= i < |qs| ==> Coerce(qs[i]) == Some(r.value[i])
  {
    if qs == [] then Some([])
    else
      match Coerce(qs[0])
      case None => None
      case Some(c) =>
        match CoerceAll(qs[1..])
        case None => assert forall i :: 1 <= i < |qs| ==> qs[i] == qs[1..][i - 1]; None
        case Some(rest) => assert forall i :: 1 <= i < |qs| ==> qs[i] == qs[1..][i - 1]; Some([c] + rest)
  }

  /** A list that converts element by element to `out` converts to `out`. */
  lemma CoerceAllIs(qs: seq<Json>, out: seq<Json>)
    requires |out| == |qs| && forall i :: 0 <= i < |qs| ==> Coerce(qs[i]) == Some(out[i])
    ensures CoerceAll(qs) == Some(out)
  {
    assert CoerceAll(qs).Some?;
    var r := CoerceAll(qs).value;
    forall i | 0 <= i < |qs|
      ensures r[i] == out[i]
    {
      assert Coerce(qs[i]) == Some(r[i]);
    }
    assert r == out;
  }

  /** Converting a converted list changes nothing: what the setter stores
      is what the getter returns. */
  lemma {:induction false} CoerceAllIdempotent(qs: seq<Json>)
    requires CoerceAll(qs).Some?
    ensures CoerceAll(CoerceAll(qs).value) == CoerceAll(qs)
  {
    var c := CoerceAll(qs).value;
    forall i | 0 <= i < |c|
      ensures Coerce(c[i]) == Some(c[i])
    {
      CoerceIdempotent(qs[i]);
    }
    CoerceAllIs(c, c);
  }

  /** After conversion every correctAnswer present is None or an int, and
      nothing else in the questions changed. */
  lemma CoercedAnswersAreInts(qs: seq<Json>)
    requires CoerceAll(qs).Some?
    ensures var r := CoerceAll(qs).value;
      && |r| == |qs|
      && (forall i :: 0 <= i < |r| ==> IntAnswer(r[i]))
      && (forall i :: 0 <= i < |r| && !qs[i].JObj? ==> r[i] == qs[i])
      && (forall i :: 0 <= i < |r| && qs[i].JObj? ==> r[i].JObj? && r[i].fields.Keys == qs[i].fields.Keys)
  {
    var r := CoerceAll(qs).value;
    forall i | 0 <= i < |r|
      ensures IntAnswer(r[i])
    {
      assert Coerce(qs[i]) == Some(r[i]);
    }
  }

  /** The index of the first question the loop cannot convert, or the
      length when there is none. */
  function FailIndex(qs: seq<Json>): (k: nat)
    ensures k <= |qs|
    ensures forall i :: 0 <= i < k ==> Coerce(qs[i]).Some?
    ensures k < |qs| ==> Coerce(qs[k]).None?
  {
    if qs == [] then 0
    else if Coerce(qs[0]).None? then 0
    else
      assert forall i :: 1 <= i < |qs| ==> qs[i] == qs[1..][i - 1];
      1 + FailIndex(qs[1..])
  }

  /** The caller's list `now` after the setter's loop reached index `k`
      of the list it was `given`: converted before `k`, untouched from
      `k` on. */
  predicate ConvertedUpTo(given: seq<Json>, now: seq<Json>, k: nat) {
    && |now| == |given| && k <= |given|
    && (forall i :: 0 <= i < k ==> Coerce(given[i]) == Some(now[i]))
    && (forall i :: k <= i < |now| ==> now[i] == given[i])
  }

  class Quiz {
    var id: int
    var title: Json
    var description: Json
    var category: Json
    var difficulty: Json
    /** `questions_json`; None while the column is empty. */
    var questionsJson: Option<seq<Json>>
    var timeLimit: Json
    var createdAt: Json
    var lastModified: Json
    var userId: Json

    /** `Quiz(...)` with the columns a creation gives; the questions, the
        dates and anything else start empty. */
    constructor (id: int, title: Json, description: Json, category: Json, difficulty: Json, timeLimit: Json, userId: Json)
      ensures this.id == id && this.title == title && this.description == description
      ensures this.category == category && this.difficulty == difficulty
      ensures this.timeLimit == timeLimit && this.userId == userId
      ensures questionsJson.None? && createdAt == JNull && lastModified == JNull
    {
      this.id := id;
      this.title := title;
      this.description := description;
      this.category := category;
      this.difficulty := difficulty;
      this.timeLimit := timeLimit;
      this.userId := userId;
      questionsJson := None;
      createdAt := JNull;
      lastModified := JNull;
    }

    /** What the getter returns: [] for an empty column, otherwise the
        stored list converted; None is the exception. */
    function StoredQuestions(): (r: Option<seq<Json>>)
      reads this
    {
      match questionsJson
      case None => Some([])
      case Some(qs) => CoerceAll(qs)
    }

    /** The `questions` getter: loads the list and converts each
        correctAnswer in it. */
    method Questions() returns (r: Option<seq<Json>>)
      ensures r == StoredQuestions()
      ensures questionsJson.None? ==> r == Some([])
      ensures r.Some? ==> forall i :: 0 <= i < |r.value| ==> IntAnswer(r.value[i])
    {
      if questionsJson.None? {
        return Some([]);
      }
      var loaded := questionsJson.value;
      var questions := loaded;
      var i := 0;
      while i < |questions|
        invariant 0 <= i <= |questions| == |loaded|
        invariant forall k :: 0 <= k < i ==> Coerce(loaded[k]) == Some(questions[k])
        invariant forall k :: i <= k < |questions| ==> questions[k] == loaded[k]
      {
        var c := Coerce(questions[i]);
        if c.None? {
          return None;
        }
        questions := questions[i := c.value];
        i := i + 1;
      }
      CoerceAllIs(loaded, questions);
      CoercedAnswersAreInts(loaded);
      r := Some(questions);
    }

    /** The `questions` setter: converts each correctAnswer inside the
        caller's list, then stores the list. When int() raises part-way,
        the questions before the failing one stay converted in the caller's
        list and the column keeps its old value. */
    method SetQuestions(data: array<Json>) returns (ok: bool)
      modifies this`questionsJson, data
      ensures ok <==> CoerceAll(old(data[..])).Some?
      ensures ok ==> Some(data[..]) == CoerceAll(old(data[..])) && questionsJson == Some(data[..])
      ensures ok ==> StoredQuestions() == CoerceAll(old(data[..]))
      ensures !ok ==> questionsJson == old(questionsJson)
      ensures !ok ==> FailIndex(old(data[..])) < data.Length
                      && ConvertedUpTo(old(data[..]), data[..], FailIndex(old(data[..])))
    {
      ghost var given := data[..];
      var i := 0;
      while i < data.Length
        invariant 0 <= i <= data.Length && i <= FailIndex(given)
        invariant ConvertedUpTo(given, data[..], i)
        invariant questionsJson == old(questionsJson)
      {
        var c := Coerce(data[i]);
        if c.None? {
          assert given[i] == data[i];
          return false;
        }
        data[i] := c.value;
        i := i + 1;
      }
      CoerceAllIs(given, data[..]);
      CoerceAllIdempotent(given);
      questionsJson := Some(data[..]);
      ok := true;
    }

    /** `to_dict()`: the columns under their API names, with the getter's
        questions; None when the getter raises. */
    function ToDict(): (r: Option<map<string, Json>>)
      reads this
    {
      match StoredQuestions()
      case None => None
      case Some(qs) =>
        Some(map["id" := JInt(id), "title" := title, "description" := description, "category" := category,
                 "difficulty" := difficulty, "questions" := JArr(qs), "timeLimit" := timeLimit,
                 "createdAt" := createdAt, "lastModified" := lastModified, "userId" := userId])
    }
  }

  /** to_dict renames time_limit, created_at, last_modified and user_id to
      timeLimit, createdAt, lastModified and userId, and fails exactly when
      the getter does. */
  lemma ToDictRenames(q: Quiz)
    ensures q.ToDict().Some? <==> q.StoredQuestions().Some?
    ensures q.ToDict().Some? ==> var d := q.ToDict().value;
      && d.Keys == {"id", "title", "description", "category", "difficulty", "questions",
                    "timeLimit", "createdAt", "lastModified", "userId"}
      && d["timeLimit"] == q.timeLimit && d["createdAt"] == q.createdAt
      && d["lastModified"] == q.lastModified && d["userId"] == q.userId
      && d["id"] == JInt(q.id) && d["title"] == q.title && d["questions"] == JArr(q.StoredQuestions().value)
  {
  }

  /** An empty column reads as no questions. */
  lemma EmptyColumnReadsEmpty(q: Quiz)
    requires q.questionsJson.None?
    ensures q.StoredQuestions() == Some([])
  {
  }
}
