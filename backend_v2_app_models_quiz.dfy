/** backend_v2/app/models/quiz.py: the second backend's quizzes, their
    questions and answers, and the attempts users make at them. Quizzes,
    questions and answers are values here: no core operation changes one
    once it is stored. An attempt is an object, since submitting writes
    its answers, completion time and score. Column values are what the
    database hands back: NULL is None, DateTime columns are integer
    seconds, and JSON text columns hold the decoded value itself. */
module V2QuizModel {
  import opened Common

  datatype Answer = Answer(id: int, answerText: string, isCorrect: Option<bool>, orderIndex: Option<int>)

  datatype Question = Question(id: int, questionText: string, questionType: Option<string>,
                               points: Option<int>, orderIndex: Option<int>, answers: seq<Answer>)

  datatype Quiz = Quiz(id: int, title: string, description: Option<string>, creatorId: int,
                       isPublic: Option<bool>, timeLimit: Option<int>, randomizeQuestions: Option<bool>,
                       createdAt: int, updatedAt: int, questions: seq<Question>)

  function OptText(t: Option<string>): Json {
    if t.Some? then JStr(t.value) else JNull
  }

  function OptInt(n: Option<int>): Json {
    if n.Some? then JInt(n.value) else JNull
  }

  function OptBool(b: Option<bool>): Json {
    if b.Some? then JBool(b.value) else JNull
  }

  /** `Answer.to_dict(include_correct)`. */
  function AnswerDict(a: Answer, includeCorrect: bool): (d: map<string, Json>)
    ensures "is_correct" in d <==> includeCorrect
    ensures d.Keys >= {"id", "answer_text", "order_index"} && d["id"] == JInt(a.id)
  {
    var base := map["id" := JInt(a.id), "answer_text" := JStr(a.answerText), "order_index" := OptInt(a.orderIndex)];
    if includeCorrect then base["is_correct" := OptBool(a.isCorrect)] else base
  }

  /** `Question.to_dict(include_answers)`: the answers use their own
      default, which leaves out whether they are correct. */
  function QuestionDict(q: Question, includeAnswers: bool): (d: map<string, Json>)
    ensures "answers" in d <==> includeAnswers
    ensures includeAnswers ==> d["answers"] == JArr(seq(|q.answers|, i requires 0 <= i < |q.answers| => JObj(AnswerDict(q.answers[i], false))))
  {
    var base := map["id" := JInt(q.id), "question_text" := JStr(q.questionText),
                    "question_type" := OptText(q.questionType), "points" := OptInt(q.points),
                    "order_index" := OptInt(q.orderIndex)];
    if includeAnswers then
      base["answers" := JArr(seq(|q.answers|, i requires 0 <= i < |q.answers| => JObj(AnswerDict(q.answers[i], false))))]
    else base
  }

  /** `Quiz.to_dict(include_questions)`; the creator's username is looked
      up by the caller. */
  function QuizDict(z: Quiz, creatorUsername: Option<string>, includeQuestions: bool): (d: map<string, Json>)
    ensures "questions" in d <==> includeQuestions
    ensures "question_count" in d && "id" in d
    ensures d["question_count"] == JInt(|z.questions|) && d["id"] == JInt(z.id)
    ensures includeQuestions ==> d["questions"] == JArr(QuestionDicts(z.questions))
  {
    var base := map["id" := JInt(z.id), "title" := JStr(z.title), "description" := OptText(z.description),
                    "creator_id" := JInt(z.creatorId), "creator_username" := OptText(creatorUsername),
                    "is_public" := OptBool(z.isPublic), "time_limit" := OptInt(z.timeLimit),
                    "randomize_questions" := OptBool(z.randomizeQuestions),
                    "created_at" := JInt(z.createdAt), "updated_at" := JInt(z.updatedAt),
                    "question_count" := JInt(|z.questions|)];
    if includeQuestions then base["questions" := JArr(QuestionDicts(z.questions))] else base
  }

  function QuestionDicts(qs: seq<Question>): (r: seq<Json>)
    ensures |r| == |qs|
    ensures forall i :: 0 <= i < |qs| ==> r[i] == JObj(QuestionDict(qs[i], true))
  {
    seq(|qs|, i requires 0 <= i < |qs| => JObj(QuestionDict(qs[i], true)))
  }

  /** No answer in a serialised question says whether it is correct. */
  predicate NoCorrectFlag(question: Json) {
    question.JObj? ==>
      var answers := GetOr(question.fields, "answers", JArr([]));
      answers.JArr? ==> forall k :: 0 <= k < |answers.items| ==>
        answers.items[k].JObj? ==> "is_correct" !in answers.items[k].fields
  }

  /** A serialised quiz with its questions never shows which answers are
      correct. */
  lemma QuizDictHidesCorrect(z: Quiz, creatorUsername: Option<string>)
    ensures var d := QuizDict(z, creatorUsername, true);
      d["questions"].JArr? && forall i :: 0 <= i < |d["questions"].items| ==> NoCorrectFlag(d["questions"].items[i])
  {
    var qs := QuestionDicts(z.questions);
    forall i | 0 <= i < |qs|
      ensures NoCorrectFlag(qs[i])
    {
      var q := z.questions[i];
      var answers := QuestionDict(q, true)["answers"];
      forall k | 0 <= k < |answers.items|
        ensures "is_correct" !in answers.items[k].fields
      {
        assert answers.items[k] == JObj(AnswerDict(q.answers[k], false));
      }
    }
  }

  // ---------------------------------------------------------------------
  // Scoring

  /** The first correct answer of a question, as
      `next((a for a in answers if a.is_correct), None)`. */
  function FirstCorrect(answers: seq<Answer>): Option<Answer> {
    if answers == [] then None
    else if answers[0].isCorrect == Some(true) then Some(answers[0])
    else FirstCorrect(answers[1..])
  }

  /** FirstCorrect finds the answer at the lowest index marked correct,
      and None only when no answer is. */
  lemma {:induction false} FirstCorrectIsFirst(answers: seq<Answer>)
    ensures FirstCorrect(answers).None? <==> forall k :: 0 <= k < |answers| ==> answers[k].isCorrect != Some(true)
    ensures FirstCorrect(answers).Some? ==>
              (exists k :: 0 <= k < |answers| && answers[k] == FirstCorrect(answers).value
                 && answers[k].isCorrect == Some(true) && forall m :: 0 <= m < k ==> answers[m].isCorrect != Some(true))
  {
    if answers != [] && answers[0].isCorrect != Some(true) {
      var rest := answers[1..];
      FirstCorrectIsFirst(rest);
      assert forall k :: 1 <= k < |answers| ==> answers[k] == rest[k - 1];
      if FirstCorrect(rest).Some? {
        var k :| 0 <= k < |rest| && rest[k] == FirstCorrect(rest).value
              && rest[k].isCorrect == Some(true) && forall m :: 0 <= m < k ==> rest[m].isCorrect != Some(true);
        assert answers[k + 1] == rest[k];
      }
    }
  }

  /** A question earns its points when the stored answer for its id is
      truthy and reads, as text, as the id of its first correct answer. */
  predicate Earns(q: Question, answers: map<string, Json>) {
    var given := GetOr(answers, IntToString(q.id), JNull);
    var correct := FirstCorrect(q.answers);
    PyTruthy(given) && correct.Some? && IntToString(correct.value.id) == PyStr(given)
  }

  /** The points a question earns with the given answers. */
  function Gain(q: Question, answers: map<string, Json>): int
    requires q.points.Some?
  {
    if Earns(q, answers) then q.points.value else 0
  }

  /** Every question has its points. */
  predicate AllPointed(qs: seq<Question>) {
    forall i :: 0 <= i < |qs| ==> qs[i].points.Some?
  }

  /** The points of the questions, when every question has them. */
  function TotalPoints(qs: seq<Question>): int
    requires AllPointed(qs)
  {
    if qs == [] then 0 else TotalPoints(qs[..|qs| - 1]) + qs[|qs| - 1].points.value
  }

  /** The points of the questions that earn. */
  function EarnedPoints(qs: seq<Question>, answers: map<string, Json>): int
    requires AllPointed(qs)
  {
    if qs == [] then 0 else EarnedPoints(qs[..|qs| - 1], answers) + Gain(qs[|qs| - 1], answers)
  }

  /** The loop runs to the end exactly when every question has points and,
      unless there are none, the stored answers are an object. */
  predicate ScoreRuns(qs: seq<Question>, answers: Json) {
    AllPointed(qs) && (qs == [] || answers.JObj?)
  }

  /** The answers the loop looks ids up in (none when there are no
      questions to look up). */
  function AnswerFields(answers: Json): map<string, Json> {
    if answers.JObj? then answers.fields else map[]
  }

  /** A prefix whose questions all have points extends by one more that
      has them. */
  lemma PointedNext(qs: seq<Question>, i: nat)
    requires i < |qs| && AllPointed(qs[..i]) && qs[i].points.Some?
    ensures AllPointed(qs[..i + 1])
  {
    var p, q := qs[..i + 1], qs[..i];
    assert forall k :: 0 <= k < i ==> p[k] == q[k];
    assert p[i] == qs[i];
  }

  /** The running sums over a prefix extend by the next question. */
  lemma PrefixNext(qs: seq<Question>, answers: map<string, Json>, i: nat)
    requires i < |qs| && AllPointed(qs[..i + 1])
    ensures AllPointed(qs[..i])
    ensures TotalPoints(qs[..i + 1]) == TotalPoints(qs[..i]) + qs[i].points.value
    ensures EarnedPoints(qs[..i + 1], answers) == EarnedPoints(qs[..i], answers) + Gain(qs[i], answers)
  {
    assert qs[..i + 1][..i] == qs[..i];
  }

  /** With non-negative points, 0 <= earned <= total. */
  lemma {:induction false} EarnedAtMostTotal(qs: seq<Question>, answers: map<string, Json>)
    requires AllPointed(qs) && forall i :: 0 <= i < |qs| ==> qs[i].points.value >= 0
    ensures 0 <= EarnedPoints(qs, answers) <= TotalPoints(qs)
  {
    if qs != [] {
      var init := qs[..|qs| - 1];
      assert forall i :: 0 <= i < |init| ==> init[i] == qs[i];
      EarnedAtMostTotal(init, answers);
    }
  }

  /** Answering every question with its first correct answer's id earns
      every point. */
  lemma {:induction false} AllCorrectEarnsAll(qs: seq<Question>, answers: map<string, Json>)
    requires AllPointed(qs)
    requires forall i :: 0 <= i < |qs| ==> Earns(qs[i], answers)
    ensures EarnedPoints(qs, answers) == TotalPoints(qs)
  {
    if qs != [] {
      var init := qs[..|qs| - 1];
      assert forall i :: 0 <= i < |init| ==> init[i] == qs[i];
      AllCorrectEarnsAll(init, answers);
    }
  }

  /** `percentage`: score / max_score * 100, or 0 when the maximum is 0;
      exact here where the source divides floats. */
  function Percentage(earned: int, total: int): real {
    if total > 0 then (earned as real) / (total as real) * 100.0 else 0.0
  }

  lemma PercentageBounds(earned: int, total: int)
    requires 0 <= earned <= total
    ensures 0.0 <= Percentage(earned, total) <= 100.0
    ensures total > 0 && earned == total ==> Percentage(earned, total) == 100.0
  {
    if total > 0 {
      assert (earned as real) / (total as real) <= 1.0;
    }
  }

  class QuizAttempt {
    const id: int
    const userId: int
    const quizId: int
    /** `answers_json`; None while it is NULL. */
    var answersJson: Option<Json>
    var score: Option<int>
    var maxScore: Option<int>
    var percentage: Option<real>
    const startedAt: int
    var completedAt: Option<int>
    var timeTaken: Option<int>

    /** `QuizAttempt(user_id, quiz_id, started_at)`. */
    constructor (id: int, userId: int, quizId: int, startedAt: int)
      ensures this.id == id && this.userId == userId && this.quizId == quizId && this.startedAt == startedAt
      ensures answersJson.None? && score.None? && maxScore.None? && percentage.None?
      ensures completedAt.None? && timeTaken.None?
    {
      this.id := id;
      this.userId := userId;
      this.quizId := quizId;
      this.startedAt := startedAt;
      answersJson := None;
      score := None;
      maxScore := None;
      percentage := None;
      completedAt := None;
      timeTaken := None;
    }

    /** `set_answers`: stores the answers. */
    method SetAnswers(answers: Json)
      modifies this`answersJson
      ensures answersJson == Some(answers) && Answers() == answers
    {
      answersJson := Some(answers);
    }

    /** `get_answers`: the stored answers, or {} when none are stored. */
    function Answers(): (r: Json)
      reads this
      ensures answersJson.None? ==> r == JObj(map[])
      ensures answersJson.Some? ==> r == answersJson.value
    {
      if answersJson.None? then JObj(map[]) else answersJson.value
    }

    /** `calculate_score`: nothing happens when no answers are stored;
        otherwise the loop adds up every question's points and those the
        answers earn, and stores the score, the maximum and the
        percentage. `ok` is false when the loop raises, having stored
        nothing. */
    method CalculateScore(quiz: Quiz) returns (ok: bool)
      modifies this`score, this`maxScore, this`percentage
      ensures answersJson.None? ==> ok && unchanged(this)
      ensures answersJson.Some? ==> (ok <==> ScoreRuns(quiz.questions, Answers()))
      ensures !ok ==> unchanged(this)
      ensures answersJson.Some? && ok ==>
                var earned, total := EarnedPoints(quiz.questions, AnswerFields(Answers())), TotalPoints(quiz.questions);
                score == Some(earned) && maxScore == Some(total) && percentage == Some(Percentage(earned, total))
    {
      if answersJson.None? {
        return true;
      }
      var answers := Answers();
      var qs := quiz.questions;
      ghost var fields := AnswerFields(answers);
      var total, earned := 0, 0;
      var i := 0;
      while i < |qs|
        invariant 0 <= i <= |qs|
        invariant AllPointed(qs[..i]) && (i > 0 ==> answers.JObj?)
        invariant total == TotalPoints(qs[..i]) && earned == EarnedPoints(qs[..i], fields)
        invariant unchanged(this)
      {
        var q := qs[i];
        if q.points.None? {
          assert !AllPointed(qs);
          return false;
        }
        total := total + q.points.value;
        if !answers.JObj? {
          return false;
        }
        PointedNext(qs, i);
        PrefixNext(qs, fields, i);
        var given := GetOr(answers.fields, IntToString(q.id), JNull);
        if PyTruthy(given) {
          var correct := FirstCorrect(q.answers);
          if correct.Some? && IntToString(correct.value.id) == PyStr(given) {
            earned := earned + q.points.value;
          }
        }
        assert earned == EarnedPoints(qs[..i], fields) + Gain(q, fields);
        i := i + 1;
      }
      assert qs[..|qs|] == qs;
      score, maxScore, percentage := Some(earned), Some(total), Some(Percentage(earned, total));
      ok := true;
    }
  }
}
