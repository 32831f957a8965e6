/** backend/controllers/quiz_controller.py: the older `QuizController`
    over the Quiz model of backend/models/quiz.py: the list filter,
    creation and update with their request validation, and deletion. */
module LegacyQuizController {
  import opened Common
  import opened LegacyQuizModel
  import opened SqlLike

  // ---------------------------------------------------------------------
  // Validation

  /** Why a create or an update is refused with 400. Question and answer
      positions are kept as the messages show them: `index` counts from
      0, `number` and `question` from 1. */
  datatype Refusal =
    | MissingField(field: string)
    | TitleLength
    | DescriptionLength
    | CategoryEmpty
    | DifficultyEmpty
    | TimeLimitInvalid
    | QuestionsEmpty
    | QuestionsEmptyIfProvided
    | QuestionNotObject(index: nat)
    | QuestionTextEmpty(number: nat)
    | TooFewAnswers(number: nat)
    | AnswerNotObject(index: nat, question: nat)
    | AnswerTextEmpty(number: nat, question: nat)
    | CorrectNotBool(number: nat, question: nat)
    | NoCorrectAnswer(number: nat)

  function Message(r: Refusal): string {
    match r
    case MissingField(f) => "Missing required field: " + f
    case TitleLength => "Title must be between 1 and 100 characters."
    case DescriptionLength => "Description must be at most 500 characters."
    case CategoryEmpty => "Category cannot be empty."
    case DifficultyEmpty => "Difficulty cannot be empty."
    case TimeLimitInvalid => "Time limit must be a non-negative integer."
    case QuestionsEmpty => "Questions list cannot be empty."
    case QuestionsEmptyIfProvided => "Questions list cannot be empty if provided."
    case QuestionNotObject(i) => "Question at index " + NatToString(i) + " must be an object."
    case QuestionTextEmpty(n) => "Question text for question " + NatToString(n) + " cannot be empty."
    case TooFewAnswers(n) => "Question " + NatToString(n) + " must have at least 2 answers."
    case AnswerNotObject(j, n) => "Answer at index " + NatToString(j) + " for question " + NatToString(n) + " must be an object."
    case AnswerTextEmpty(m, n) => "Answer text for answer " + NatToString(m) + " in question " + NatToString(n) + " cannot be empty."
    case CorrectNotBool(m, n) => "isCorrect flag for answer " + NatToString(m) + " in question " + NatToString(n) + " must be a boolean."
    case NoCorrectAnswer(n) => "Question " + NatToString(n) + " must have at least one correct answer."
  }

  /** How a check ends: it passes, refuses, or raises (len() of a value
      without one). */
  datatype Check = Pass | Refuse(why: Refusal) | Raise

  /** `not x or not isinstance(x, str)`, negated. */
  predicate NonEmptyText(j: Json) {
    j.JStr? && j.s != ""
  }

  /** An answer the inner loop accepts. */
  predicate AnswerValid(a: Json) {
    a.JObj? && NonEmptyText(GetOr(a.fields, "answerText", JNull)) && GetOr(a.fields, "isCorrect", JNull).JBool?
  }

  predicate MarkedCorrect(a: Json) {
    AnswerValid(a) && GetOr(a.fields, "isCorrect", JNull).b
  }

  /** The answer loop of question number `n` from position `j`, with
      `count` correct answers seen so far. */
  function AnswersCheck(answers: seq<Json>, j: nat, n: nat, count: nat): (c: Check)
    requires j <= |answers|
    ensures !c.Raise?
    ensures c.Refuse? ==> c.why.NoCorrectAnswer? || c.why.AnswerNotObject? || c.why.AnswerTextEmpty? || c.why.CorrectNotBool?
    decreases |answers| - j
  {
    if j == |answers| then (if count == 0 then Refuse(NoCorrectAnswer(n)) else Pass)
    else
      var a := answers[j];
      if !a.JObj? then Refuse(AnswerNotObject(j, n))
      else if !NonEmptyText(GetOr(a.fields, "answerText", JNull)) then Refuse(AnswerTextEmpty(j + 1, n))
      else if !GetOr(a.fields, "isCorrect", JNull).JBool? then Refuse(CorrectNotBool(j + 1, n))
      else AnswersCheck(answers, j + 1, n, if GetOr(a.fields, "isCorrect", JNull).b then count + 1 else count)
  }

  /** A question both loops accept: a non-empty text, at least two
      answers, each valid, and one of them correct. */
  predicate QuestionValid(q: Json) {
    && q.JObj?
    && NonEmptyText(GetOr(q.fields, "questionText", JNull))
    && GetOr(q.fields, "answers", JNull).JArr?
    && |GetOr(q.fields, "answers", JNull).items| >= 2
    && (forall k :: 0 <= k < |GetOr(q.fields, "answers", JNull).items| ==> AnswerValid(GetOr(q.fields, "answers", JNull).items[k]))
    && (exists k :: 0 <= k < |GetOr(q.fields, "answers", JNull).items| && MarkedCorrect(GetOr(q.fields, "answers", JNull).items[k]))
  }

  /** The checks on the question at index `i`. */
  function QuestionCheck(q: Json, i: nat): (c: Check)
    ensures !c.Raise?
    ensures c.Refuse? ==> !c.why.MissingField?
  {
    if !q.JObj? then Refuse(QuestionNotObject(i))
    else if !NonEmptyText(GetOr(q.fields, "questionText", JNull)) then Refuse(QuestionTextEmpty(i + 1))
    else
      var answers := GetOr(q.fields, "answers", JNull);
      if !answers.JArr? || |answers.items| < 2 then Refuse(TooFewAnswers(i + 1))
      else AnswersCheck(answers.items, 0, i + 1, 0)
  }

  /** The question loop from index `i`: the first question that fails
      decides. */
  function QuestionsCheck(qs: seq<Json>, i: nat): (c: Check)
    requires i <= |qs|
    ensures !c.Raise?
    ensures c.Refuse? ==> !c.why.MissingField?
    decreases |qs| - i
  {
    if i == |qs| then Pass
    else
      var c := QuestionCheck(qs[i], i);
      if !c.Pass? then c else QuestionsCheck(qs, i + 1)
  }

  /** The answer loop passes exactly when every remaining answer is
      valid and, counting those already seen, one is correct. */
  lemma {:induction false} AnswersAccepted(answers: seq<Json>, j: nat, n: nat, count: nat)
    requires j <= |answers|
    ensures AnswersCheck(answers, j, n, count).Pass? <==>
              (forall k :: j <= k < |answers| ==> AnswerValid(answers[k]))
              && (count > 0 || exists k :: j <= k < |answers| && MarkedCorrect(answers[k]))
    decreases |answers| - j
  {
    if j < |answers| {
      var a := answers[j];
      if AnswerValid(a) {
        var next := if GetOr(a.fields, "isCorrect", JNull).b then count + 1 else count;
        AnswersAccepted(answers, j + 1, n, next);
        if MarkedCorrect(a) {
          assert next > 0;
        }
      }
    }
  }

  /** A question passes exactly when it is valid. */
  lemma QuestionAccepted(q: Json, i: nat)
    ensures QuestionCheck(q, i).Pass? <==> QuestionValid(q)
  {
    if q.JObj? && NonEmptyText(GetOr(q.fields, "questionText", JNull)) {
      var answers := GetOr(q.fields, "answers", JNull);
      if answers.JArr? && |answers.items| >= 2 {
        AnswersAccepted(answers.items, 0, i + 1, 0);
      }
    }
  }

  /** The index of the first question from `i` that fails, or the length. */
  function FirstBadQuestion(qs: seq<Json>, i: nat): (k: nat)
    requires i <= |qs|
    ensures i <= k <= |qs|
    ensures forall m :: i <= m < k ==> QuestionCheck(qs[m], m).Pass?
    ensures k < |qs| ==> !QuestionCheck(qs[k], k).Pass?
    decreases |qs| - i
  {
    if i == |qs| || !QuestionCheck(qs[i], i).Pass? then i else FirstBadQuestion(qs, i + 1)
  }

  /** The question loop answers with the first failing question's own
      refusal, and passes only when every question is valid. */
  lemma {:induction false} FirstBadQuestionDecides(qs: seq<Json>, i: nat)
    requires i <= |qs|
    ensures var k := FirstBadQuestion(qs, i);
      QuestionsCheck(qs, i) == (if k == |qs| then Pass else QuestionCheck(qs[k], k))
    ensures QuestionsCheck(qs, i).Pass? <==> forall m :: i <= m < |qs| ==> QuestionValid(qs[m])
    decreases |qs| - i
  {
    if i < |qs| {
      QuestionAccepted(qs[i], i);
      FirstBadQuestionDecides(qs, i + 1);
      forall m | i < m < |qs|
        ensures QuestionCheck(qs[m], m).Pass? <==> QuestionValid(qs[m])
      {
        QuestionAccepted(qs[m], m);
      }
    }
  }

  /** `1 <= len(title) <= 100` for a truthy title. */
  function TitleCheck(t: Json): Check {
    match PyLen(t)
    case None => Raise
    case Some(n) => if 1 <= n <= 100 then Pass else Refuse(TitleLength)
  }

  /** `len(description) > 500` refuses. */
  function DescriptionLengthCheck(d: Json): Check {
    match PyLen(d)
    case None => Raise
    case Some(n) => if n > 500 then Refuse(DescriptionLength) else Pass
  }

  /** A given time limit is an int (bools are ints in Python) that is not
      negative. */
  function TimeLimitCheck(t: Json): (c: Check)
    ensures c.Pass? <==> t.JNull? || t.JBool? || (t.JInt? && t.n >= 0)
    ensures !c.Raise?
  {
    if t.JNull? then Pass
    else if t.JBool? || (t.JInt? && t.n >= 0) then Pass
    else Refuse(TimeLimitInvalid)
  }

  function Then(a: Check, b: Check): Check {
    if a.Pass? then b else a
  }

  // ---------------------------------------------------------------------
  // create_quiz

  /** One required field: present and truthy. */
  function RequiredCheck(data: map<string, Json>, f: string): (c: Check)
    ensures c.Pass? <==> f in data && PyTruthy(data[f])
    ensures !c.Pass? ==> c == Refuse(MissingField(f))
  {
    if f !in data || !PyTruthy(data[f]) then Refuse(MissingField(f)) else Pass
  }

  /** The questions of a request, or none when they are not a list. */
  function Items(j: Json): seq<Json> {
    if j.JArr? then j.items else []
  }

  /** create_quiz's checks, in the source's order. */
  function CreateCheck(data: map<string, Json>): Check {
    var required :=
      Then(RequiredCheck(data, "title"), Then(RequiredCheck(data, "category"),
      Then(RequiredCheck(data, "difficulty"), RequiredCheck(data, "questions"))));
    var description := GetOr(data, "description", JNull);
    var questions := GetOr(data, "questions", JNull);
    Then(required,
    Then(TitleCheck(GetOr(data, "title", JNull)),
    Then(if PyTruthy(description) then DescriptionLengthCheck(description) else Pass,
    Then(if !PyTruthy(GetOr(data, "category", JNull)) then Refuse(CategoryEmpty) else Pass,
    Then(if !PyTruthy(GetOr(data, "difficulty", JNull)) then Refuse(DifficultyEmpty) else Pass,
    Then(TimeLimitCheck(GetOr(data, "timeLimit", JNull)),
    Then(if !questions.JArr? || questions.items == [] then Refuse(QuestionsEmpty) else Pass,
         QuestionsCheck(Items(questions), 0))))))))
  }

  predicate Present(data: map<string, Json>, f: string) {
    f in data && PyTruthy(data[f])
  }

  /** A missing or falsy title, category, difficulty or questions is
      refused before anything else is looked at, naming the first one in
      that order; and a missing-field refusal means one of them is absent. */
  lemma RequiredFieldsFirst(data: map<string, Json>)
    ensures !Present(data, "title") ==> CreateCheck(data) == Refuse(MissingField("title"))
    ensures Present(data, "title") && !Present(data, "category") ==>
              CreateCheck(data) == Refuse(MissingField("category"))
    ensures Present(data, "title") && Present(data, "category") && !Present(data, "difficulty") ==>
              CreateCheck(data) == Refuse(MissingField("difficulty"))
    ensures Present(data, "title") && Present(data, "category") && Present(data, "difficulty") && !Present(data, "questions") ==>
              CreateCheck(data) == Refuse(MissingField("questions"))
    ensures CreateCheck(data).Refuse? && CreateCheck(data).why.MissingField? ==>
              !(Present(data, "title") && Present(data, "category") && Present(data, "difficulty") && Present(data, "questions"))
  {
  }

  /** What an accepted create has checked. */
  lemma CreateAccepted(data: map<string, Json>)
    requires CreateCheck(data).Pass?
    ensures forall f :: f in ["title", "category", "difficulty", "questions"] ==> f in data && PyTruthy(data[f])
    ensures PyLen(data["title"]).Some? && 1 <= PyLen(data["title"]).value <= 100
    ensures var d := GetOr(data, "description", JNull); PyTruthy(d) ==> PyLen(d).Some? && PyLen(d).value <= 500
    ensures var t := GetOr(data, "timeLimit", JNull); t.JNull? || t.JBool? || (t.JInt? && t.n >= 0)
    ensures data["questions"].JArr? && data["questions"].items != []
    ensures forall i :: 0 <= i < |data["questions"].items| ==> QuestionValid(data["questions"].items[i])
  {
    FirstBadQuestionDecides(Items(data["questions"]), 0);
  }

  // ---------------------------------------------------------------------
  // update_quiz

  /** The checks of update_quiz, one per field it may change, in order:
      title, description, category, difficulty, time limit, questions.
      A field absent from the data passes. */
  function StageCheck(data: map<string, Json>, s: nat): Check {
    if s == 0 then
      (if "title" !in data then Pass
       else if !PyTruthy(data["title"]) then Refuse(TitleLength)
       else TitleCheck(data["title"]))
    else if s == 1 then
      (if "description" !in data || data["description"].JNull? then Pass
       else DescriptionLengthCheck(data["description"]))
    else if s == 2 then
      (if "category" in data && !PyTruthy(data["category"]) then Refuse(CategoryEmpty) else Pass)
    else if s == 3 then
      (if "difficulty" in data && !PyTruthy(data["difficulty"]) then Refuse(DifficultyEmpty) else Pass)
    else if s == 4 then
      (if "timeLimit" in data then TimeLimitCheck(data["timeLimit"]) else Pass)
    else if s == 5 then
      (if "questions" !in data then Pass
       else if !data["questions"].JArr? || data["questions"].items == [] then Refuse(QuestionsEmptyIfProvided)
       else QuestionsCheck(data["questions"].items, 0))
    else Pass
  }

  const Stages := 6

  /** The first stage whose check does not pass, or `Stages`. */
  function FirstFailing(data: map<string, Json>, s: nat): (k: nat)
    requires s <= Stages
    ensures s <= k <= Stages
    ensures forall m :: s <= m < k ==> StageCheck(data, m).Pass?
    ensures k < Stages ==> !StageCheck(data, k).Pass?
    decreases Stages - s
  {
    if s == Stages || !StageCheck(data, s).Pass? then s else FirstFailing(data, s + 1)
  }

  /** The columns update_quiz may assign. */
  datatype QuizRow = QuizRow(title: Json, description: Json, category: Json, difficulty: Json,
                             timeLimit: Json, lastModified: Json, questionsJson: Option<seq<Json>>)

  function RowOf(q: Quiz): QuizRow
    reads q
  {
    QuizRow(q.title, q.description, q.category, q.difficulty, q.timeLimit, q.lastModified, q.questionsJson)
  }

  /** The value of a column after the update: the data's value when the
      key is present and the column's stage was reached, else the old. */
  function Given(data: map<string, Json>, key: string, reached: bool, current: Json): Json {
    if reached && key in data then data[key] else current
  }

  /** The row once the stages before `s` have passed and assigned their
      columns; lastModified, which has no check, is assigned between the
      time limit and the questions. */
  function AssignedBefore(r: QuizRow, data: map<string, Json>, s: nat): QuizRow {
    QuizRow(Given(data, "title", s > 0, r.title),
            Given(data, "description", s > 1, r.description),
            Given(data, "category", s > 2, r.category),
            Given(data, "difficulty", s > 3, r.difficulty),
            Given(data, "timeLimit", s > 4, r.timeLimit),
            Given(data, "lastModified", s > 4, r.lastModified),
            r.questionsJson)
  }

  /** Only columns whose keys are in the data change; the rest keep their
      values whatever stage the update reached. */
  lemma AbsentKeysKeepValues(r: QuizRow, data: map<string, Json>, s: nat)
    ensures var a := AssignedBefore(r, data, s);
      && ("title" !in data ==> a.title == r.title)
      && ("description" !in data ==> a.description == r.description)
      && ("category" !in data ==> a.category == r.category)
      && ("difficulty" !in data ==> a.difficulty == r.difficulty)
      && ("timeLimit" !in data ==> a.timeLimit == r.timeLimit)
      && ("lastModified" !in data ==> a.lastModified == r.lastModified)
      && a.questionsJson == r.questionsJson
    ensures var a := AssignedBefore(r, data, Stages);
      && ("title" in data ==> a.title == data["title"])
      && ("description" in data ==> a.description == data["description"])
      && ("timeLimit" in data ==> a.timeLimit == data["timeLimit"])
  {
  }

  /** An update that passes has checked the title's length, the
      description's length (None allowed), the time limit (None allowed)
      and every question. */
  lemma UpdateAccepted(data: map<string, Json>)
    requires FirstFailing(data, 0) == Stages
    ensures "title" in data ==> PyTruthy(data["title"]) && PyLen(data["title"]).Some? && 1 <= PyLen(data["title"]).value <= 100
    ensures "description" in data ==> data["description"].JNull? || (PyLen(data["description"]).Some? && PyLen(data["description"]).value <= 500)
    ensures "timeLimit" in data ==> var t := data["timeLimit"]; t.JNull? || t.JBool? || (t.JInt? && t.n >= 0)
    ensures "questions" in data ==>
              (data["questions"].JArr? && data["questions"].items != []
               && forall i :: 0 <= i < |data["questions"].items| ==> QuestionValid(data["questions"].items[i]))
  {
    assert StageCheck(data, 0).Pass? && StageCheck(data, 1).Pass? && StageCheck(data, 4).Pass? && StageCheck(data, 5).Pass?;
    if "questions" in data {
      FirstBadQuestionDecides(data["questions"].items, 0);
    }
  }

  // ---------------------------------------------------------------------
  // get_all_quizzes

  /** `column.ilike(pattern)`: NULL and non-text values match nothing. */
  predicate ColumnLike(j: Json, p: string) {
    j.JStr? && Like(j.s, p)
  }

  /** The filter of get_all_quizzes: each filter given (truthy) must hold. */
  predicate Listed(q: Quiz, category: Option<string>, difficulty: Option<string>, search: Option<string>)
    reads q
  {
    && (category.None? || category.value == "" || q.category == JStr(category.value))
    && (difficulty.None? || difficulty.value == "" || q.difficulty == JStr(difficulty.value))
    && (search.None? || search.value == ""
        || ColumnLike(q.title, "%" + search.value + "%") || ColumnLike(q.description, "%" + search.value + "%"))
  }

  function ListQuizzes(qs: seq<Quiz>, category: Option<string>, difficulty: Option<string>, search: Option<string>): (r: seq<Quiz>)
    reads qs
    ensures |r| <= |qs|
    ensures forall i :: 0 <= i < |r| ==> r[i] in qs
  {
    if qs == [] then []
    else
      var rest := ListQuizzes(qs[1..], category, difficulty, search);
      assert forall i :: 0 <= i < |rest| ==> rest[i] in qs;
      if Listed(qs[0], category, difficulty, search) then [qs[0]] + rest else rest
  }

  /** The listing keeps exactly the quizzes that pass the filter. */
  lemma {:induction false} ListingIsFilter(qs: seq<Quiz>, category: Option<string>, difficulty: Option<string>, search: Option<string>)
    ensures forall q :: q in ListQuizzes(qs, category, difficulty, search) <==> q in qs && Listed(q, category, difficulty, search)
  {
    if qs != [] {
      ListingIsFilter(qs[1..], category, difficulty, search);
      assert forall q :: q in qs <==> q == qs[0] || q in qs[1..];
    }
  }

  /** The listing keeps the table's order. */
  lemma {:induction false} ListingKeepsOrder(qs: seq<Quiz>, category: Option<string>, difficulty: Option<string>, search: Option<string>)
    ensures Subsequence(ListQuizzes(qs, category, difficulty, search), qs)
  {
    if qs != [] {
      var rest := ListQuizzes(qs[1..], category, difficulty, search);
      ListingKeepsOrder(qs[1..], category, difficulty, search);
      if Listed(qs[0], category, difficulty, search) {
        assert ([qs[0]] + rest)[1..] == rest;
      } else if rest != [] {
        assert Subsequence(rest, qs[1..]);
      }
    }
  }

  const ListFailed := "Database error occurred while retrieving quizzes"

  /** The dictionaries of the listed quizzes, or the error when a
      question list cannot be read back. */
  function ToDicts(qs: seq<Quiz>): (r: Result<seq<map<string, Json>>>)
    reads qs
    ensures r.Ok? ==> |r.value| == |qs| && forall i :: 0 <= i < |qs| ==> qs[i].ToDict() == Some(r.value[i])
    ensures r.Err? ==> r.msg == ListFailed && exists i :: 0 <= i < |qs| && qs[i].ToDict().None?
  {
    if qs == [] then Ok([])
    else
      match qs[0].ToDict()
      case None => Err(ListFailed)
      case Some(d) =>
        assert forall i :: 1 <= i < |qs| ==> qs[i] == qs[1..][i - 1];
        match ToDicts(qs[1..])
        case Err(e) => assert qs[1..][0] == qs[1]; Err(e)
        case Ok(rest) => Ok([d] + rest)
  }

  /** get_all_quizzes over the table's quizzes. */
  function GetAllQuizzes(qs: seq<Quiz>, category: Option<string>, difficulty: Option<string>, search: Option<string>): Result<seq<map<string, Json>>>
    reads qs
  {
    ToDicts(ListQuizzes(qs, category, difficulty, search))
  }

  // ---------------------------------------------------------------------
  // The table

  /** A handler's answer: the quiz's dictionary or nothing, the error
      text, the status; or an exception the handler does not catch. */
  datatype Reply = Reply(body: Option<map<string, Json>>, error: Option<string>, status: int) | Uncaught

  const CreateFailed := "An error occurred while creating the quiz."
  const UpdateFailed := "An error occurred while updating the quiz."
  const QuizNotFound := "Quiz not found"

  /** A value SQLite can bind to a column: anything but a list or an
      object. */
  predicate Scalar(j: Json) {
    !(j.JArr? || j.JObj?)
  }

  /** The columns of a new quiz bind. */
  predicate Bindable(title: Json, description: Json, category: Json, difficulty: Json, userId: Json) {
    Scalar(title) && Scalar(description) && Scalar(category) && Scalar(difficulty) && Scalar(userId)
  }

  function IndexOfQuiz(qs: seq<Quiz>, id: int): (r: Option<nat>)
    reads qs
    ensures r.Some? ==> r.value < |qs| && qs[r.value].id == id
    ensures r.None? ==> forall i :: 0 <= i < |qs| ==> qs[i].id != id
  {
    if qs == [] then None
    else if qs[0].id == id then Some(0)
    else match IndexOfQuiz(qs[1..], id)
      case Some(i) => Some(i + 1)
      case None => assert forall i :: 1 <= i < |qs| ==> qs[i] == qs[1..][i - 1]; None
  }

  function MaxQuizId(qs: seq<Quiz>): (m: int)
    reads qs
    ensures m >= 0 && forall i :: 0 <= i < |qs| ==> qs[i].id <= m
  {
    if qs == [] then 0
    else
      var rest := MaxQuizId(qs[1..]);
      assert forall i :: 1 <= i < |qs| ==> qs[i] == qs[1..][i - 1];
      if qs[0].id > rest then qs[0].id else rest
  }

  class QuizTable {
    var quizzes: seq<Quiz>

    ghost predicate Valid()
      reads this, quizzes
    {
      forall i, j :: 0 <= i < j < |quizzes| ==> quizzes[i] != quizzes[j] && quizzes[i].id != quizzes[j].id
    }

    constructor ()
      ensures Valid() && quizzes == []
    {
      quizzes := [];
    }

    /** create_quiz: the checks; then a new quiz with the request's
        columns and its questions through the setter, committed unless the
        setter raises or a value cannot be bound (a 500, nothing added). */
    method CreateQuiz(data: map<string, Json>) returns (reply: Reply)
      requires Valid()
      modifies this
      ensures Valid()
      ensures CreateCheck(data).Raise? ==> reply == Uncaught && quizzes == old(quizzes)
      ensures CreateCheck(data).Refuse? ==>
                reply == Reply(None, Some(Message(CreateCheck(data).why)), 400) && quizzes == old(quizzes)
      ensures CreateCheck(data).Pass? && !CreateWritable(data) ==>
                reply == Reply(None, Some(CreateFailed), 500) && quizzes == old(quizzes)
      ensures CreateCheck(data).Pass? && CreateWritable(data) ==>
                && |quizzes| == |old(quizzes)| + 1 && quizzes[..|old(quizzes)|] == old(quizzes)
                && fresh(quizzes[|old(quizzes)|])
                && CreatedFrom(quizzes[|old(quizzes)|], data)
                && reply.Reply? && reply.status == 201 && reply.error.None?
                && reply.body == quizzes[|old(quizzes)|].ToDict() && reply.body.Some?
    {
      var check := CreateCheck(data);
      if check.Raise? {
        return Uncaught;
      }
      if check.Refuse? {
        return Reply(None, Some(Message(check.why)), 400);
      }
      if !CreateWritable(data) {
        return Reply(None, Some(CreateFailed), 500);
      }
      var q := NewQuiz(MaxQuizId(quizzes) + 1, data);
      AppendQuiz(q);
      reply := Reply(q.ToDict(), None, 201);
    }

    /** Adds a new quiz with an id no quiz has. */
    method AppendQuiz(q: Quiz)
      requires Valid() && q !in quizzes && q.id > MaxQuizId(quizzes)
      modifies this
      ensures Valid() && quizzes == old(quizzes) + [q]
    {
      quizzes := quizzes + [q];
    }

    /** update_quiz: a missing quiz is a 404; then each field present in
        the data is checked and assigned in turn. A refusal returns at
        once: the columns assigned before it stay on the session's object
        and nothing is committed. An exception before the commit rolls the
        object back; one in to_dict() after it leaves the commit made. */
    method UpdateQuiz(id: int, data: map<string, Json>) returns (reply: Reply, committed: bool)
      requires Valid()
      modifies quizzes
      ensures Valid() && quizzes == old(quizzes)
      ensures IndexOfQuiz(quizzes, id).None? ==>
                reply == Reply(None, Some(QuizNotFound), 404) && !committed
                && forall q :: q in quizzes ==> unchanged(q)
      ensures IndexOfQuiz(quizzes, id).Some? ==>
                var q := quizzes[IndexOfQuiz(quizzes, id).value];
                && (forall p :: p in quizzes && p != q ==> unchanged(p))
                && q.id == old(q.id) && q.createdAt == old(q.createdAt) && q.userId == old(q.userId)
                && UpdateEffect(old(RowOf(q)), RowOf(q), data, reply, committed)
                && (reply.Reply? && reply.status == 200 ==> reply.body == q.ToDict())
    {
      var k := IndexOfQuiz(quizzes, id);
      if k.None? {
        return Reply(None, Some(QuizNotFound), 404), false;
      }
      var q := quizzes[k.value];
      reply, committed := Update(q, data);
    }

    /** delete_quiz: (False, "Quiz not found") when no quiz has the id;
        otherwise the quiz is removed and the others stay in order. */
    method DeleteQuiz(id: int) returns (ok: bool, err: Option<string>)
      requires Valid()
      modifies this
      ensures Valid()
      ensures ok <==> old(IndexOfQuiz(quizzes, id)).Some?
      ensures !ok ==> err == Some(QuizNotFound) && quizzes == old(quizzes)
      ensures ok ==> err.None? && var k := old(IndexOfQuiz(quizzes, id)).value;
                quizzes == old(quizzes[..k] + quizzes[k + 1..])
      ensures forall q :: q in quizzes <==> q in old(quizzes) && q.id != id
    {
      var k := IndexOfQuiz(quizzes, id);
      if k.None? {
        return false, Some(QuizNotFound);
      }
      ghost var before := quizzes;
      quizzes := quizzes[..k.value] + quizzes[k.value + 1..];
      RemovalKeepsOthers(before, k.value);
      ok, err := true, None;
    }
  }

  /** Removing the quiz at `k` of a table whose ids differ keeps every
      other quiz and no quiz with the removed one's id. */
  lemma RemovalKeepsOthers(qs: seq<Quiz>, k: nat)
    requires k < |qs|
    requires forall i, j :: 0 <= i < j < |qs| ==> qs[i] != qs[j] && qs[i].id != qs[j].id
    ensures var r := qs[..k] + qs[k + 1..];
      && (forall i, j :: 0 <= i < j < |r| ==> r[i] != r[j] && r[i].id != r[j].id)
      && (forall q :: q in r <==> q in qs && q.id != qs[k].id)
  {
    var r := qs[..k] + qs[k + 1..];
    assert forall i :: 0 <= i < |r| ==> r[i] == qs[if i < k then i else i + 1];
    forall q | q in qs && q.id != qs[k].id
      ensures q in r
    {
      var i :| 0 <= i < |qs| && qs[i] == q;
      assert i != k;
      assert r[if i < k then i else i - 1] == q;
    }
  }

  /** The new quiz of create_quiz, its questions set through the setter
      on a copy of the request's list. */
  method NewQuiz(id: int, data: map<string, Json>) returns (q: Quiz)
    requires CreateWritable(data)
    ensures fresh(q) && q.id == id && CreatedFrom(q, data) && q.ToDict().Some?
  {
    var items := Items(data["questions"]);
    q := new Quiz(id, data["title"], GetOr(data, "description", JNull), data["category"],
                  data["difficulty"], GetOr(data, "timeLimit", JNull), GetOr(data, "userId", JNull));
    var given := new Json[|items|](i requires 0 <= i < |items| => items[i]);
    assert given[..] == items;
    var ok := q.SetQuestions(given);
    assert ok;
    CoerceAllIdempotent(items);
  }

  /** The values the checks let a creation through with and the commit
      accepts: the setter converts every question and the columns bind. */
  predicate CreateWritable(data: map<string, Json>) {
    && "title" in data && "category" in data && "difficulty" in data && "questions" in data
    && CoerceAll(Items(data["questions"])).Some?
    && Bindable(data["title"], GetOr(data, "description", JNull), data["category"], data["difficulty"], GetOr(data, "userId", JNull))
  }

  /** The quiz a successful create adds. */
  ghost predicate CreatedFrom(q: Quiz, data: map<string, Json>)
    reads q
  {
    && "title" in data && "category" in data && "difficulty" in data && "questions" in data
    && q.title == data["title"] && q.description == GetOr(data, "description", JNull)
    && q.category == data["category"] && q.difficulty == data["difficulty"]
    && q.timeLimit == GetOr(data, "timeLimit", JNull) && q.userId == GetOr(data, "userId", JNull)
    && q.createdAt == JNull && q.lastModified == JNull
    && q.questionsJson == CoerceAll(Items(data["questions"]))
  }

  /** The row a passing update commits: the checked columns, and the
      converted questions when the data has them. */
  function Final(before: QuizRow, data: map<string, Json>): QuizRow {
    AssignedBefore(before, data, Stages).(questionsJson :=
      if "questions" in data then CoerceAll(Items(data["questions"])) else before.questionsJson)
  }

  /** The getter can read the row's question column. */
  predicate Readable(r: QuizRow) {
    r.questionsJson.None? || CoerceAll(r.questionsJson.value).Some?
  }

  /** A passing update the setter and the commit accept: the new
      questions convert and each text column given binds. */
  predicate UpdateWritable(data: map<string, Json>) {
    && ("questions" in data ==> CoerceAll(Items(data["questions"])).Some?)
    && Scalar(GetOr(data, "title", JNull)) && Scalar(GetOr(data, "description", JNull))
    && Scalar(GetOr(data, "category", JNull)) && Scalar(GetOr(data, "difficulty", JNull))
    && Scalar(GetOr(data, "lastModified", JNull))
  }

  /** What update_quiz leaves, from the row `before` to the row `after`. */
  ghost predicate UpdateEffect(before: QuizRow, after: QuizRow, data: map<string, Json>, reply: Reply, committed: bool) {
    var k := FirstFailing(data, 0);
    if k < Stages && StageCheck(data, k).Raise? then
      reply == Reply(None, Some(UpdateFailed), 500) && !committed && after == before
    else if k < Stages then
      reply == Reply(None, Some(Message(StageCheck(data, k).why)), 400) && !committed
      && after == AssignedBefore(before, data, k)
    else if !UpdateWritable(data) then
      reply == Reply(None, Some(UpdateFailed), 500) && !committed && after == before
    else
      committed && after == Final(before, data)
      && if Readable(after) then reply.Reply? && reply.status == 200 && reply.error.None? && reply.body.Some?
         else reply == Reply(None, Some(UpdateFailed), 500)
  }

  /** New questions an update stores always read back: only a question
      column the update left alone can make the reply a 500 after the
      commit. */
  lemma UpdatedQuestionsReadable(before: QuizRow, data: map<string, Json>)
    requires "questions" in data && UpdateWritable(data)
    ensures Readable(Final(before, data))
  {
    CoerceAllIdempotent(Items(data["questions"]));
  }

  /** The body of update_quiz once the quiz is found. */
  method Update(q: Quiz, data: map<string, Json>) returns (reply: Reply, committed: bool)
    modifies q
    ensures q.id == old(q.id) && q.createdAt == old(q.createdAt) && q.userId == old(q.userId)
    ensures UpdateEffect(old(RowOf(q)), RowOf(q), data, reply, committed)
    ensures reply.Reply? && reply.status == 200 ==> reply.body == q.ToDict()
  {
    var k := FirstFailing(data, 0);
    if k < Stages && StageCheck(data, k).Raise? {
      return Reply(None, Some(UpdateFailed), 500), false;
    }
    if k < Stages {
      AssignStages(q, data, k);
      return Reply(None, Some(Message(StageCheck(data, k).why)), 400), false;
    }
    if !UpdateWritable(data) {
      return Reply(None, Some(UpdateFailed), 500), false;
    }
    AssignStages(q, data, Stages);
    if "questions" in data {
      var items := Items(data["questions"]);
      var given := new Json[|items|](i requires 0 <= i < |items| => items[i]);
      assert given[..] == items;
      var ok := q.SetQuestions(given);
      assert ok;
    }
    committed := true;
    var d := q.ToDict();
    if d.None? {
      reply := Reply(None, Some(UpdateFailed), 500);
    } else {
      reply := Reply(d, None, 200);
    }
  }

  /** The assignments of the stages before `k`. */
  method AssignStages(q: Quiz, data: map<string, Json>, k: nat)
    modifies q
    ensures RowOf(q) == AssignedBefore(old(RowOf(q)), data, k)
    ensures q.id == old(q.id) && q.createdAt == old(q.createdAt) && q.userId == old(q.userId)
  {
    var r := AssignedBefore(RowOf(q), data, k);
    q.title, q.description, q.category, q.difficulty := r.title, r.description, r.category, r.difficulty;
    q.timeLimit, q.lastModified := r.timeLimit, r.lastModified;
  }
}
