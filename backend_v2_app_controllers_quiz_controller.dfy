/** backend_v2/app/controllers/quiz_controller.py: the second backend's
    quiz routes. Quizzes are values in the store's list; an attempt is an
    object, which submitting completes. The signed-in user is a
    parameter (an id, or None when nobody is signed in), and so is the
    clock, in whole seconds. Every handler catches any exception into a
    500 reply with the handler's own message, rolling the session back. */
module V2QuizController {
  import opened Common
  import opened SqlLike
  import opened V2QuizModel

  const NoQuizAccess := "Brak dostępu do tego quizu"
  const NoAttemptAccess := "Brak dostępu do tej próby"
  const AlreadyCompleted := "Ta próba została już ukończona"
  const QuizCreated := "Quiz został utworzony"
  const QuizStarted := "Quiz rozpoczęty"
  const QuizFinished := "Quiz ukończony"
  const ListError := "Błąd podczas pobierania quizów"
  const GetError := "Błąd podczas pobierania quizu"
  const CreateError := "Błąd podczas tworzenia quizu"
  const StartError := "Błąd podczas rozpoczynania quizu"
  const SubmitError := "Błąd podczas zapisywania odpowiedzi"

  /** `jsonify({'success': False, 'message': message}), status`. */
  function Refused(status: int, message: string): Response {
    Response(status, map["success" := JBool(false), "message" := JStr(message)])
  }

  /** What `get_or_404` turns into for an unknown id. The handlers call it
      inside their `try`, whose `except Exception` also catches the
      NotFound it raises: as written the caller gets the handler's 500.
      Propagated404 is the evidently intended 404 (Flask's own page,
      whose body is not modelled). */
  datatype NotFoundHandling = CaughtAs500 | Propagated404

  function Missing(h: NotFoundHandling, context: string): (r: Response)
    ensures h == CaughtAs500 ==> r.status == 500
    ensures h == Propagated404 ==> r.status == 404
  {
    if h == CaughtAs500 then Refused(500, Failure(context)) else Response(404, map[])
  }

  /** The first quiz with the id, as `Quiz.query.get`. */
  function FindQuiz(qs: seq<Quiz>, id: int): (r: Option<Quiz>)
    ensures r.Some? ==> r.value in qs && r.value.id == id
    ensures r.None? ==> forall z :: z in qs ==> z.id != id
  {
    if qs == [] then None else if qs[0].id == id then Some(qs[0]) else FindQuiz(qs[1..], id)
  }

  /** The creator's username for to_dict, looked up by id. */
  function Username(names: map<int, string>, id: int): Option<string> {
    if id in names then Some(names[id]) else None
  }

  // ---------------------------------------------------------------------
  // get_quizzes, get_my_quizzes

  /** A quiz the public list shows: stored with is_public true (NULL and
      false are left out by `is_public == True`), and, for a non-empty
      search, a title matching `title LIKE '%search%'`; `contains` does
      not escape the search, so `%` and `_` in it are wildcards. */
  predicate PublicListed(z: Quiz, search: string) {
    z.isPublic == Some(true) && (search != "" ==> Like(z.title, "%" + search + "%"))
  }

  /** The public quizzes, in table order, before pagination. */
  function PublicQuizzes(qs: seq<Quiz>, search: string): (r: seq<Quiz>)
    ensures forall z :: z in r <==> z in qs && PublicListed(z, search)
    ensures Subsequence(r, qs)
  {
    if qs == [] then []
    else
      var rest := PublicQuizzes(qs[1..], search);
      if PublicListed(qs[0], search) then
        assert ([qs[0]] + rest)[1..] == rest;
        [qs[0]] + rest
      else
        assert rest == [] || Subsequence(rest, qs[1..]);
        rest
  }

  /** For a search without wildcards, the list holds exactly the public
      quizzes whose title contains the search, ignoring ASCII case. */
  lemma SearchByTitle(qs: seq<Quiz>, search: string)
    requires search != "" && NoWildcards(search)
    ensures forall z :: z in PublicQuizzes(qs, search) <==>
              z in qs && z.isPublic == Some(true) && Contains(Lower(z.title), Lower(search))
  {
    forall z | z in qs
      ensures PublicListed(z, search) <==> z.isPublic == Some(true) && Contains(Lower(z.title), Lower(search))
    {
      SearchIsContains(z.title, search);
    }
  }

  /** An empty search lists every public quiz. */
  lemma EmptySearchListsAllPublic(qs: seq<Quiz>)
    ensures forall z :: z in PublicQuizzes(qs, "") <==> z in qs && z.isPublic == Some(true)
  {
  }

  function Dicts(qs: seq<Quiz>, names: map<int, string>): (r: seq<Json>)
    ensures |r| == |qs|
    ensures forall i :: 0 <= i < |qs| ==> r[i] == JObj(QuizDict(qs[i], Username(names, qs[i].creatorId), false))
  {
    seq(|qs|, i requires 0 <= i < |qs| => JObj(QuizDict(qs[i], Username(names, qs[i].creatorId), false)))
  }

  /** `get_quizzes` without its pagination block: every listed quiz, as
      to_dict without questions. */
  function GetQuizzes(qs: seq<Quiz>, names: map<int, string>, search: string): (r: Response)
    ensures r.status == 200 && "success" in r.body && "quizzes" in r.body && r.body["success"] == JBool(true)
    ensures r.body["quizzes"] == JArr(Dicts(PublicQuizzes(qs, search), names))
  {
    Response(200, map["success" := JBool(true), "quizzes" := JArr(Dicts(PublicQuizzes(qs, search), names))])
  }

  /** `get_my_quizzes`: the signed-in user's quizzes, public or not. */
  function MyQuizzes(qs: seq<Quiz>, userId: int): (r: seq<Quiz>)
    ensures forall z :: z in r <==> z in qs && z.creatorId == userId
    ensures Subsequence(r, qs)
  {
    if qs == [] then []
    else
      var rest := MyQuizzes(qs[1..], userId);
      if qs[0].creatorId == userId then
        assert ([qs[0]] + rest)[1..] == rest;
        [qs[0]] + rest
      else
        assert rest == [] || Subsequence(rest, qs[1..]);
        rest
  }

  // ---------------------------------------------------------------------
  // get_quiz

  /** Who may see a quiz: anybody when it is public, otherwise only its
      creator, signed in. */
  predicate Visible(z: Quiz, viewer: Option<int>) {
    z.isPublic == Some(true) || (viewer.Some? && z.creatorId == viewer.value)
  }

  /** `get_quiz`: the quiz with its questions (and no correct flags), 403
      for a quiz the viewer may not see. */
  function GetQuiz(qs: seq<Quiz>, names: map<int, string>, id: int, viewer: Option<int>, h: NotFoundHandling): (r: Response)
    ensures FindQuiz(qs, id).None? ==> r == Missing(h, GetError)
    ensures FindQuiz(qs, id).Some? && !Visible(FindQuiz(qs, id).value, viewer) ==> r == Refused(403, NoQuizAccess)
    ensures r.status == 200 <==> FindQuiz(qs, id).Some? && Visible(FindQuiz(qs, id).value, viewer)
    ensures r.status == 200 ==>
              var z := FindQuiz(qs, id).value;
              "quiz" in r.body && r.body["quiz"] == JObj(QuizDict(z, Username(names, z.creatorId), true))
  {
    match FindQuiz(qs, id)
    case None => Missing(h, GetError)
    case Some(z) =>
      if !Visible(z, viewer) then Refused(403, NoQuizAccess)
      else Response(200, map["success" := JBool(true), "quiz" := JObj(QuizDict(z, Username(names, z.creatorId), true))])
  }

  /** A quiz that is not public is shown to its creator alone, and what
      is shown never says which answers are correct. */
  lemma PrivateQuizForCreatorOnly(qs: seq<Quiz>, names: map<int, string>, id: int, viewer: Option<int>, h: NotFoundHandling)
    requires GetQuiz(qs, names, id, viewer, h).status == 200
    ensures var z := FindQuiz(qs, id).value;
      z.isPublic != Some(true) ==> viewer == Some(z.creatorId)
    ensures var q := GetQuiz(qs, names, id, viewer, h).body["quiz"].fields["questions"];
      q.JArr? && forall i :: 0 <= i < |q.items| ==> NoCorrectFlag(q.items[i])
  {
    var z := FindQuiz(qs, id).value;
    QuizDictHidesCorrect(z, Username(names, z.creatorId));
  }

  /** As written, an unknown quiz id gives the handler's 500. */
  lemma UnknownQuizAsWritten(qs: seq<Quiz>, names: map<int, string>, id: int, viewer: Option<int>)
    requires forall z :: z in qs ==> z.id != id
    ensures GetQuiz(qs, names, id, viewer, CaughtAs500) == Refused(500, Failure(GetError))
  {
  }

  /** With NotFound let through, an unknown quiz id gives 404, and
      only an unknown id does. */
  lemma UnknownQuizIs404(qs: seq<Quiz>, names: map<int, string>, id: int, viewer: Option<int>)
    ensures GetQuiz(qs, names, id, viewer, Propagated404).status == 404 <==> forall z :: z in qs ==> z.id != id
  {
  }

  // ---------------------------------------------------------------------
  // create_quiz: the rows a request produces

  /** An Integer column: an int, a bool as 1 or 0, NULL, or text that
      SQLite's INTEGER affinity reads as an integer ("60" is stored as
      60). */
  function IntCell(j: Json): (r: Option<Option<int>>)
    ensures r.None? <==> j.JArr? || j.JObj? || (j.JStr? && SignedDecimal(j.s).None?)
    ensures j.JNull? ==> r == Some(None)
    ensures j.JInt? ==> r == Some(Some(j.n))
  {
    match j
    case JNull => Some(None)
    case JInt(n) => Some(Some(n))
    case JBool(b) => Some(Some(if b then 1 else 0))
    case JStr(s) => if SignedDecimal(s).Some? then Some(SignedDecimal(s)) else None
    case _ => None
  }

  /** The decimal text of an integer, sent for an Integer column, is
      stored as that integer. */
  lemma IntegerTextIsStored(n: int)
    ensures IntCell(JStr(IntToString(n))) == Some(Some(n))
  {
    SignedDecimalOfString(n);
  }

  /** `data.get(key, d)` for a column whose default is `d`: an explicit
      None is left out of the INSERT, so the column's default is stored
      then too. */
  function Given(f: map<string, Json>, key: string, d: Json): (r: Json)
    ensures key in f && !f[key].JNull? ==> r == f[key]
    ensures key !in f || f[key].JNull? ==> r == d
  {
    if key in f && !f[key].JNull? then f[key] else d
  }

  /** A Boolean column, whose strict conversion takes True, False, 0, 1
      and None and raises on anything else. */
  function BoolCell(j: Json): (r: Option<Option<bool>>)
    ensures r.None? <==> !(j.JNull? || j.JBool? || j == JInt(0) || j == JInt(1))
    ensures j.JNull? ==> r == Some(None)
    ensures j.JBool? ==> r == Some(Some(j.b))
  {
    if j.JNull? then Some(None) else if SqliteBool(j).Some? then Some(SqliteBool(j)) else None
  }

  /** The items a `for x in value` loop sees, when each of them must
      then answer `.get`: a list's items; an empty string or dict gives
      none; a non-empty string or dict gives strings, which raise, and
      None, a number or a bool is not iterable. */
  function Items(j: Json): Option<seq<Json>> {
    match j
    case JArr(items) => Some(items)
    case JStr(s) => if s == "" then Some([]) else None
    case JObj(f) => if f == map[] then Some([]) else None
    case _ => None
  }

  /** The Answer row an answer's data gives, or None for the exception:
      the data must be a dict, answer_text may not be NULL, is_correct
      defaults to False and order_index to 0. */
  function AnswerRow(a: Json, id: int): (r: Option<Answer>)
    ensures !a.JObj? ==> r.None?
    ensures a.JObj? && GetOr(a.fields, "answer_text", JNull).JNull? ==> r.None?
    ensures r.Some? ==> r.value.id == id && TextCell(GetOr(a.fields, "answer_text", JNull)) == Some(Some(r.value.answerText))
  {
    if !a.JObj? then None
    else
      var text := TextCell(GetOr(a.fields, "answer_text", JNull));
      var correct := BoolCell(Given(a.fields, "is_correct", JBool(false)));
      var order := IntCell(Given(a.fields, "order_index", JInt(0)));
      if text.None? || text.value.None? || correct.None? || order.None? then None
      else Some(Answer(id, text.value.value, correct.value, order.value))
  }

  /** The rows of the first `n` answers of a question, numbered from
      `aid` on; None when one of them raises. */
  function AnswerRowsUpTo(items: seq<Json>, n: nat, aid: int): Option<seq<Answer>>
    requires n <= |items|
  {
    if n == 0 then Some([])
    else
      var init := AnswerRowsUpTo(items, n - 1, aid);
      var last := AnswerRow(items[n - 1], aid + n - 1);
      if init.None? || last.None? then None else Some(init.value + [last.value])
  }

  /** The rows of all of a question's answers. */
  function AnswerRows(items: seq<Json>, aid: int): Option<seq<Answer>> {
    AnswerRowsUpTo(items, |items|, aid)
  }

  /** The answers' rows follow their data one for one, answer `k` with
      id `aid + k`, and the question raises as soon as one answer does. */
  lemma {:induction false} AnswerRowsUpToMeaning(items: seq<Json>, n: nat, aid: int)
    requires n <= |items|
    ensures AnswerRowsUpTo(items, n, aid).Some? <==> forall k :: 0 <= k < n ==> AnswerRow(items[k], aid + k).Some?
    ensures AnswerRowsUpTo(items, n, aid).Some? ==> var r := AnswerRowsUpTo(items, n, aid).value;
              |r| == n && forall k :: 0 <= k < n ==> AnswerRow(items[k], aid + k) == Some(r[k]) && r[k].id == aid + k
  {
    if n > 0 {
      AnswerRowsUpToMeaning(items, n - 1, aid);
    }
  }

  /** The same for all of a question's answers. */
  lemma AnswerRowsMeaning(items: seq<Json>, aid: int)
    ensures AnswerRows(items, aid).Some? <==> forall k :: 0 <= k < |items| ==> AnswerRow(items[k], aid + k).Some?
    ensures AnswerRows(items, aid).Some? ==> var r := AnswerRows(items, aid).value;
              |r| == |items| && forall k :: 0 <= k < |items| ==> AnswerRow(items[k], aid + k) == Some(r[k]) && r[k].id == aid + k
  {
    AnswerRowsUpToMeaning(items, |items|, aid);
  }

  /** The Question row without its answers: the data must be a dict,
      question_text may not be NULL, question_type defaults to
      'multiple_choice', points to 1 and order_index to 0. */
  function QuestionHead(q: Json, qid: int): (r: Option<Question>)
    ensures !q.JObj? ==> r.None?
    ensures q.JObj? && GetOr(q.fields, "question_text", JNull).JNull? ==> r.None?
    ensures r.Some? ==> && r.value.id == qid && r.value.answers == []
                        && TextCell(GetOr(q.fields, "question_text", JNull)) == Some(Some(r.value.questionText))
  {
    if !q.JObj? then None
    else
      var text := TextCell(GetOr(q.fields, "question_text", JNull));
      var kind := TextCell(Given(q.fields, "question_type", JStr("multiple_choice")));
      var points := IntCell(Given(q.fields, "points", JInt(1)));
      var order := IntCell(Given(q.fields, "order_index", JInt(0)));
      if text.None? || text.value.None? || kind.None? || points.None? || order.None? then None
      else Some(Question(qid, text.value.value, kind.value, points.value, order.value, []))
  }

  /** The question's row with its answers' rows, numbered from `aid`. */
  function QuestionRow(q: Json, qid: int, aid: int): Option<Question> {
    match QuestionHead(q, qid)
    case None => None
    case Some(head) =>
      match Items(GetOr(q.fields, "answers", JArr([])))
      case None => None
      case Some(items) =>
        match AnswerRows(items, aid)
        case None => None
        case Some(answers) => Some(head.(answers := answers))
  }

  /** How many answer rows the questions hold. */
  function AnswerCount(qs: seq<Question>): nat {
    if qs == [] then 0 else AnswerCount(qs[..|qs| - 1]) + |qs[|qs| - 1].answers|
  }

  /** The rows built so far and the id the next answer row gets. */
  datatype Built = Built(rows: seq<Question>, nextAnswerId: int)

  /** How one question's data becomes its rows, given the question's
      id and its first answer's id. */
  type RowBuilder = (Json, int, int) -> Option<Question>

  /** The rows built so far with the next question's rows added: it
      gets the next question id and its answers the ids after those
      already given; None once a question raises. */
  function ExtendRows(row: RowBuilder, built: Option<Built>, q: Json, qid: int): Option<Built> {
    if built.None? then None
    else
      var last := row(q, qid + |built.value.rows|, built.value.nextAnswerId);
      if last.None? then None
      else Some(Built(built.value.rows + [last.value], built.value.nextAnswerId + |last.value.answers|))
  }

  /** The rows of the first `n` questions, in order, question `k` with
      id `qid + k`, answers numbered from `aid` on. */
  function RowsUpTo(row: RowBuilder, qds: seq<Json>, n: nat, qid: int, aid: int): Option<Built>
    requires n <= |qds|
  {
    if n == 0 then Some(Built([], aid)) else ExtendRows(row, RowsUpTo(row, qds, n - 1, qid, aid), qds[n - 1], qid)
  }

  /** The rows `create_quiz` adds for the questions' data. */
  function QuestionRows(qds: seq<Json>, qid: int, aid: int): Option<seq<Question>> {
    match RowsUpTo(QuestionRow, qds, |qds|, qid, aid)
    case None => None
    case Some(b) => Some(b.rows)
  }

  /** One more question: the rows grow by its row, or raise with it. */
  lemma RowsUpToNext(row: RowBuilder, qds: seq<Json>, i: nat, qid: int, aid: int, b: Built, next: Option<Question>)
    requires i < |qds| && RowsUpTo(row, qds, i, qid, aid) == Some(b)
    requires next == row(qds[i], qid + |b.rows|, b.nextAnswerId)
    ensures next.None? ==> RowsUpTo(row, qds, i + 1, qid, aid).None?
    ensures next.Some? ==> RowsUpTo(row, qds, i + 1, qid, aid) == Some(Built(b.rows + [next.value], b.nextAnswerId + |next.value.answers|))
  {
  }

  /** Once the first questions raise, so does every longer prefix. */
  lemma {:induction false} RowsStayNone(row: RowBuilder, qds: seq<Json>, k: nat, n: nat, qid: int, aid: int)
    requires k <= n <= |qds| && RowsUpTo(row, qds, k, qid, aid).None?
    ensures RowsUpTo(row, qds, n, qid, aid).None?
    decreases n
  {
    if n > k {
      RowsStayNone(row, qds, k, n - 1, qid, aid);
    }
  }

  /** One row per question. */
  lemma {:induction false} RowsUpToLength(row: RowBuilder, qds: seq<Json>, n: nat, qid: int, aid: int)
    requires n <= |qds| && RowsUpTo(row, qds, n, qid, aid).Some?
    ensures |RowsUpTo(row, qds, n, qid, aid).value.rows| == n
  {
    if n > 0 {
      RowsUpToLength(row, qds, n - 1, qid, aid);
    }
  }

  /** Question `k` is the row of data item `k`, with id `qid + k` and
      its answers numbered on from those of the questions before it. */
  lemma {:induction false} RowsUpToAt(row: RowBuilder, qds: seq<Json>, n: nat, qid: int, aid: int, k: nat)
    requires k < n <= |qds| && RowsUpTo(row, qds, n, qid, aid).Some?
    ensures var r := RowsUpTo(row, qds, n, qid, aid).value.rows;
      && |r| == n && RowsUpTo(row, qds, k, qid, aid).Some?
      && row(qds[k], qid + k, RowsUpTo(row, qds, k, qid, aid).value.nextAnswerId) == Some(r[k])
    decreases n
  {
    var b := RowsUpTo(row, qds, n - 1, qid, aid).value;
    RowsUpToNext(row, qds, n - 1, qid, aid, b, row(qds[n - 1], qid + |b.rows|, b.nextAnswerId));
    RowsUpToLength(row, qds, n - 1, qid, aid);
    if k < n - 1 {
      RowsUpToAt(row, qds, n - 1, qid, aid, k);
    }
  }

  /** The rows follow the data one for one: question `k` is the row of
      data item `k`, with id `qid + k` and its answers numbered on from
      those of the questions before it. */
  lemma QuestionRowsAt(qds: seq<Json>, qid: int, aid: int, k: nat)
    requires QuestionRows(qds, qid, aid).Some? && k < |qds|
    ensures var r := QuestionRows(qds, qid, aid).value;
      && |r| == |qds| && RowsUpTo(QuestionRow, qds, k, qid, aid).Some?
      && QuestionRow(qds[k], qid + k, RowsUpTo(QuestionRow, qds, k, qid, aid).value.nextAnswerId) == Some(r[k])
  {
    RowsUpToAt(QuestionRow, qds, |qds|, qid, aid, k);
  }

  /** A question's row is its head with the answers' rows. */
  lemma QuestionRowHead(q: Json, qid: int, aid: int)
    requires QuestionRow(q, qid, aid).Some?
    ensures QuestionHead(q, qid) == Some(QuestionRow(q, qid, aid).value.(answers := []))
    ensures Some(QuestionRow(q, qid, aid).value.answers) ==
              AnswerRows(Items(GetOr(q.fields, "answers", JArr([]))).value, aid)
  {
  }

  /** The Quiz row without its questions: the body must be a dict, the
      title may not be NULL, the description defaults to '', is_public to
      True and randomize_questions to False; time_limit has no default. */
  function QuizHead(data: Json, id: int, creatorId: int, now: int): (r: Option<Quiz>)
    ensures !data.JObj? ==> r.None?
    ensures data.JObj? && GetOr(data.fields, "title", JNull).JNull? ==> r.None?
    ensures r.Some? ==> && r.value.id == id && r.value.creatorId == creatorId && r.value.questions == []
                        && r.value.createdAt == now && r.value.updatedAt == now
                        && TextCell(GetOr(data.fields, "title", JNull)) == Some(Some(r.value.title))
  {
    if !data.JObj? then None
    else
      var f := data.fields;
      var title := TextCell(GetOr(f, "title", JNull));
      var description := TextCell(GetOr(f, "description", JStr("")));
      var isPublic := BoolCell(Given(f, "is_public", JBool(true)));
      var timeLimit := IntCell(GetOr(f, "time_limit", JNull));
      var randomize := BoolCell(Given(f, "randomize_questions", JBool(false)));
      if title.None? || title.value.None? || description.None? || isPublic.None? || timeLimit.None? || randomize.None? then None
      else Some(Quiz(id, title.value.value, description.value, creatorId, isPublic.value, timeLimit.value, randomize.value, now, now, []))
  }

  /** The quiz `create_quiz` commits, or None when it rolls back. */
  function QuizRow(data: Json, id: int, creatorId: int, qid: int, aid: int, now: int): Option<Quiz> {
    match QuizHead(data, id, creatorId, now)
    case None => None
    case Some(head) =>
      match Items(GetOr(data.fields, "questions", JArr([])))
      case None => None
      case Some(qds) =>
        match QuestionRows(qds, qid, aid)
        case None => None
        case Some(qs) => Some(head.(questions := qs))
  }

  /** QuizRow in the order `create_quiz` meets its steps: the quiz's own
      columns, the questions' data, then their rows. */
  lemma QuizRowSteps(data: Json, id: int, creatorId: int, qid: int, aid: int, now: int)
    ensures QuizHead(data, id, creatorId, now).None? ==> QuizRow(data, id, creatorId, qid, aid, now).None?
    ensures QuizHead(data, id, creatorId, now).Some? ==>
              && data.JObj?
              && var items := Items(GetOr(data.fields, "questions", JArr([])));
                 && (items.None? ==> QuizRow(data, id, creatorId, qid, aid, now).None?)
                 && (items.Some? && QuestionRows(items.value, qid, aid).None? ==> QuizRow(data, id, creatorId, qid, aid, now).None?)
                 && (items.Some? && QuestionRows(items.value, qid, aid).Some? ==>
                       QuizRow(data, id, creatorId, qid, aid, now) ==
                         Some(QuizHead(data, id, creatorId, now).value.(questions := QuestionRows(items.value, qid, aid).value)))
  {
  }

  /** The defaults of an answer whose data leaves them out or gives
      them as null. */
  lemma AnswerDefaults(a: Json, id: int)
    requires AnswerRow(a, id).Some?
    ensures var r := AnswerRow(a, id).value;
      && r.id == id
      && (GetOr(a.fields, "is_correct", JNull).JNull? ==> r.isCorrect == Some(false))
      && (GetOr(a.fields, "order_index", JNull).JNull? ==> r.orderIndex == Some(0))
      && (a.fields["answer_text"].JStr? ==> r.answerText == a.fields["answer_text"].s)
  {
  }

  /** The defaults of a question whose data leaves them out or gives
      them as null; answers may only be left out. */
  lemma QuestionDefaults(q: Json, qid: int, aid: int)
    requires QuestionRow(q, qid, aid).Some?
    ensures var r := QuestionRow(q, qid, aid).value;
      && r.id == qid
      && (GetOr(q.fields, "question_type", JNull).JNull? ==> r.questionType == Some("multiple_choice"))
      && (GetOr(q.fields, "points", JNull).JNull? ==> r.points == Some(1))
      && (GetOr(q.fields, "order_index", JNull).JNull? ==> r.orderIndex == Some(0))
      && ("answers" !in q.fields ==> r.answers == [])
  {
  }

  /** The defaults of a quiz whose data leaves them out; is_public and
      randomize_questions also when given as null, while a null
      description or time limit is stored as NULL. */
  lemma QuizDefaults(data: Json, id: int, creatorId: int, qid: int, aid: int, now: int)
    requires QuizRow(data, id, creatorId, qid, aid, now).Some?
    ensures var r := QuizRow(data, id, creatorId, qid, aid, now).value;
      && r.id == id && r.creatorId == creatorId && r.createdAt == now && r.updatedAt == now
      && ("description" !in data.fields ==> r.description == Some(""))
      && (GetOr(data.fields, "is_public", JNull).JNull? ==> r.isPublic == Some(true))
      && (GetOr(data.fields, "randomize_questions", JNull).JNull? ==> r.randomizeQuestions == Some(false))
      && (GetOr(data.fields, "time_limit", JNull).JNull? ==> r.timeLimit.None?)
      && (GetOr(data.fields, "description", JStr("")).JNull? ==> r.description.None?)
      && ("questions" !in data.fields ==> r.questions == [])
  {
  }

  /** A quiz needs a title: without one nothing is created. */
  lemma TitleRequired(data: Json, id: int, creatorId: int, qid: int, aid: int, now: int)
    requires data.JObj? ==> GetOr(data.fields, "title", JNull).JNull?
    ensures QuizRow(data, id, creatorId, qid, aid, now).None?
  {
  }

  /** The rows of one question's data, as the loop over its answers adds
      them. */
  method BuildQuestion(q: Json, qid: int, aid: int) returns (row: Option<Question>)
    ensures row == QuestionRow(q, qid, aid)
  {
    var head := QuestionHead(q, qid);
    if head.None? {
      return None;
    }
    var items := Items(GetOr(q.fields, "answers", JArr([])));
    if items.None? {
      return None;
    }
    var answersData := items.value;
    var answers: seq<Answer> := [];
    var i := 0;
    while i < |answersData|
      invariant 0 <= i <= |answersData|
      invariant AnswerRowsUpTo(answersData, i, aid) == Some(answers)
    {
      var a := AnswerRow(answersData[i], aid + i);
      if a.None? {
        AnswerRowsUpToMeaning(answersData, |answersData|, aid);
        return None;
      }
      answers := answers + [a.value];
      i := i + 1;
    }
    row := Some(head.value.(answers := answers));
  }

  /** One turn of the loop of `create_quiz` over the questions' data:
      question `i` is flushed for the next id, then its answers are
      added after those already added. */
  method AddQuestion(questionsData: seq<Json>, i: nat, qid0: int, aid0: int, built: Built) returns (next: Option<Built>)
    requires i < |questionsData| && QuestionsBuilt(questionsData, i, qid0, aid0, Some(built))
    ensures QuestionsBuilt(questionsData, i + 1, qid0, aid0, next)
  {
    var row := BuildQuestion(questionsData[i], qid0 + |built.rows|, built.nextAnswerId);
    RowsUpToNext(QuestionRow, questionsData, i, qid0, aid0, built, row);
    if row.None? {
      return None;
    }
    next := Some(Built(built.rows + [row.value], built.nextAnswerId + |row.value.answers|));
  }

  /** The rows of the first `n` questions' data are `b`. */
  predicate QuestionsBuilt(qds: seq<Json>, n: nat, qid: int, aid: int, b: Option<Built>)
    requires n <= |qds|
  {
    RowsUpTo(QuestionRow, qds, n, qid, aid) == b
  }

  /** The loop of `create_quiz` over the questions' data. */
  method BuildQuestions(questionsData: seq<Json>, qid0: int, aid0: int) returns (rows: Option<seq<Question>>)
    ensures rows == QuestionRows(questionsData, qid0, aid0)
  {
    var built: Option<Built> := Some(Built([], aid0));
    var i := 0;
    while i < |questionsData| && built.Some?
      invariant 0 <= i <= |questionsData|
      invariant QuestionsBuilt(questionsData, i, qid0, aid0, built)
    {
      built := AddQuestion(questionsData, i, qid0, aid0, built.value);
      i := i + 1;
    }
    if built.None? {
      RowsStayNone(QuestionRow, questionsData, i, |questionsData|, qid0, aid0);
      return None;
    }
    rows := Some(built.value.rows);
  }

  /** The rows `create_quiz` adds to the session before it commits. */
  method BuildQuiz(data: Json, id: int, creatorId: int, qid: int, aid: int, now: int) returns (row: Option<Quiz>)
    ensures row == QuizRow(data, id, creatorId, qid, aid, now)
  {
    QuizRowSteps(data, id, creatorId, qid, aid, now);
    var head := QuizHead(data, id, creatorId, now);
    if head.None? {
      return None;
    }
    var items := Items(GetOr(data.fields, "questions", JArr([])));
    if items.None? {
      return None;
    }
    var built := BuildQuestions(items.value, qid, aid);
    if built.None? {
      return None;
    }
    row := Some(head.value.(questions := built.value));
  }

  /** The committed quiz has the id it was given. */
  lemma QuizRowIds(data: Json, id: int, creatorId: int, qid: int, aid: int, now: int)
    requires QuizRow(data, id, creatorId, qid, aid, now).Some?
    ensures QuizRow(data, id, creatorId, qid, aid, now).value.id == id
  {
  }

  // ---------------------------------------------------------------------
  // Answer stripping in start_quiz

  /** An answer's dict after `pop('is_correct', None)`. */
  function WithoutFlag(a: Json): Json
    requires a.JObj?
  {
    JObj(a.fields - {"is_correct"})
  }

  /** A question dict whose answers the loop may pop from: every answer
      is a dict (pop on anything else raises). */
  predicate Poppable(q: Json) {
    q.JObj? && ("answers" in q.fields ==>
      q.fields["answers"].JArr? && forall k :: 0 <= k < |q.fields["answers"].items| ==> q.fields["answers"].items[k].JObj?)
  }

  /** The question dict after the inner loop. */
  function StrippedQuestion(q: Json): (r: Json)
    requires Poppable(q)
  {
    if "answers" !in q.fields then q
    else
      var items := q.fields["answers"].items;
      JObj(q.fields["answers" := JArr(seq(|items|, k requires 0 <= k < |items| => WithoutFlag(items[k])))])
  }

  /** After stripping no answer has an is_correct key, and stripping a
      question that has none changes nothing. */
  lemma StrippingMeaning(q: Json)
    requires Poppable(q)
    ensures NoCorrectFlag(StrippedQuestion(q))
    ensures NoCorrectFlag(q) ==> StrippedQuestion(q) == q
  {
    if "answers" in q.fields && NoCorrectFlag(q) {
      var items := q.fields["answers"].items;
      var stripped := seq(|items|, k requires 0 <= k < |items| => WithoutFlag(items[k]));
      forall k | 0 <= k < |items|
        ensures stripped[k] == items[k]
      {
        assert items[k].fields - {"is_correct"} == items[k].fields;
      }
      assert stripped == items;
      assert q.fields["answers" := JArr(items)] == q.fields;
    }
  }

  /** The inner loop: pops is_correct from each answer dict. */
  method StripAnswers(answers: seq<Json>) returns (out: seq<Json>)
    requires forall k :: 0 <= k < |answers| ==> answers[k].JObj?
    ensures |out| == |answers| && forall k :: 0 <= k < |answers| ==> out[k] == WithoutFlag(answers[k])
  {
    out := answers;
    var k := 0;
    while k < |out|
      invariant 0 <= k <= |out| == |answers|
      invariant forall m :: 0 <= m < k ==> out[m] == WithoutFlag(answers[m])
      invariant forall m :: k <= m < |out| ==> out[m] == answers[m]
    {
      out := out[k := JObj(out[k].fields - {"is_correct"})];
      k := k + 1;
    }
  }

  /** The outer loop over the questions of `quiz_data`. */
  method StripQuestions(questions: seq<Json>) returns (out: seq<Json>)
    requires forall i :: 0 <= i < |questions| ==> Poppable(questions[i])
    ensures |out| == |questions| && forall i :: 0 <= i < |questions| ==> out[i] == StrippedQuestion(questions[i])
  {
    out := questions;
    var i := 0;
    while i < |out|
      invariant 0 <= i <= |out| == |questions|
      invariant forall m :: 0 <= m < i ==> out[m] == StrippedQuestion(questions[m])
      invariant forall m :: i <= m < |out| ==> out[m] == questions[m]
    {
      var q := out[i];
      if "answers" in q.fields {
        var answers := StripAnswers(q.fields["answers"].items);
        out := out[i := JObj(q.fields["answers" := JArr(answers)])];
        assert answers == seq(|answers|, k requires 0 <= k < |answers| => WithoutFlag(q.fields["answers"].items[k]));
      }
      i := i + 1;
    }
  }

  /** The dicts to_dict gives can be stripped, and stripping them
      changes nothing: to_dict already leaves is_correct out. */
  lemma StrippingQuizDictIsIdle(z: Quiz, creatorUsername: Option<string>)
    ensures var qs := QuestionDicts(z.questions);
      forall i :: 0 <= i < |qs| ==> Poppable(qs[i]) && StrippedQuestion(qs[i]) == qs[i]
  {
    var qs := QuestionDicts(z.questions);
    QuizDictHidesCorrect(z, creatorUsername);
    forall i | 0 <= i < |qs|
      ensures Poppable(qs[i]) && StrippedQuestion(qs[i]) == qs[i]
    {
      assert QuizDict(z, creatorUsername, true)["questions"].items[i] == qs[i];
      StrippingMeaning(qs[i]);
    }
  }

  // ---------------------------------------------------------------------
  // The tables

  /** The rows a successful submit writes. */
  predicate Completed(a: QuizAttempt, answers: Json, z: Quiz, now: int, startedAt: int)
    reads a
  {
    && a.answersJson == Some(answers) && a.completedAt == Some(now) && a.timeTaken == Some(now - startedAt)
    && AllPointed(z.questions)
    && var earned, total := EarnedPoints(z.questions, AnswerFields(answers)), TotalPoints(z.questions);
       a.score == Some(earned) && a.maxScore == Some(total) && a.percentage == Some(Percentage(earned, total))
  }

  class QuizStore {
    var quizzes: seq<Quiz>
    var attempts: seq<QuizAttempt>
    /** The ids the next inserts receive. */
    var nextQuizId: int
    var nextQuestionId: int
    var nextAnswerId: int
    var nextAttemptId: int

    /** Quiz ids and attempt ids are unique and below the next ids, and no
        attempt object is listed twice. */
    predicate Valid()
      reads this
    {
      && (forall i, j :: 0 <= i < j < |quizzes| ==> quizzes[i].id != quizzes[j].id)
      && (forall i :: 0 <= i < |quizzes| ==> quizzes[i].id < nextQuizId)
      && (forall i, j :: 0 <= i < j < |attempts| ==> attempts[i] != attempts[j] && attempts[i].id != attempts[j].id)
      && (forall i :: 0 <= i < |attempts| ==> attempts[i].id < nextAttemptId)
    }

    constructor ()
      ensures Valid() && quizzes == [] && attempts == []
    {
      quizzes := [];
      attempts := [];
      nextQuizId, nextQuestionId, nextAnswerId, nextAttemptId := 1, 1, 1, 1;
    }

    /** The first attempt with the id. */
    function FindAttempt(id: int): (r: Option<QuizAttempt>)
      reads this
      ensures r.Some? ==> r.value in attempts && r.value.id == id
      ensures r.None? ==> forall a :: a in attempts ==> a.id != id
    {
      FirstAttempt(attempts, id)
    }

    /** `create_quiz`: inserts the quiz, then each question and its
        answers, and commits; any exception rolls everything back. */
    method CreateQuiz(data: Json, userId: int, username: string, now: int) returns (r: Response)
      requires Valid()
      modifies this
      ensures Valid() && attempts == old(attempts)
      ensures var row := QuizRow(data, old(nextQuizId), userId, old(nextQuestionId), old(nextAnswerId), now);
        && (row.None? ==> r == Refused(500, Failure(CreateError)) && quizzes == old(quizzes) && nextQuizId == old(nextQuizId))
        && (row.Some? ==>
              && quizzes == old(quizzes) + [row.value] && r.status == 200
              && "quiz" in r.body && r.body["quiz"] == JObj(QuizDict(row.value, Some(username), true))
              && "success" in r.body && r.body["success"] == JBool(true)
              && "message" in r.body && r.body["message"] == JStr(QuizCreated))
    {
      var row := BuildQuiz(data, nextQuizId, userId, nextQuestionId, nextAnswerId, now);
      if row.None? {
        return Refused(500, Failure(CreateError));
      }
      var z := row.value;
      QuizRowIds(data, nextQuizId, userId, nextQuestionId, nextAnswerId, now);
      Commit(z);
      r := Response(200, map["success" := JBool(true), "message" := JStr(QuizCreated),
                             "quiz" := JObj(QuizDict(z, Some(username), true))]);
    }

    /** The commit of a new quiz: it joins the table under the next id,
        and the next ids move past its rows. */
    method Commit(z: Quiz)
      requires Valid() && z.id == nextQuizId
      modifies this
      ensures Valid() && attempts == old(attempts) && quizzes == old(quizzes) + [z]
      ensures nextQuizId == old(nextQuizId) + 1
    {
      assert forall k :: 0 <= k < |quizzes| ==> quizzes[k].id < z.id;
      quizzes := quizzes + [z];
      nextQuizId, nextQuestionId, nextAnswerId := nextQuizId + 1, nextQuestionId + |z.questions|, nextAnswerId + AnswerCount(z.questions);
    }

    /** `start_quiz`: records a new attempt, started now, at a quiz the
        user may take, and returns the quiz with its questions, stripped
        of any is_correct key. */
    method StartQuiz(quizId: int, userId: int, names: map<int, string>, now: int, h: NotFoundHandling)
      returns (r: Response)
      requires Valid()
      modifies this
      ensures Valid() && quizzes == old(quizzes) && nextQuizId == old(nextQuizId)
      ensures FindQuiz(quizzes, quizId).None? ==> r == Missing(h, StartError) && attempts == old(attempts)
      ensures FindQuiz(quizzes, quizId).Some? && !Visible(FindQuiz(quizzes, quizId).value, Some(userId)) ==>
                r == Refused(403, NoQuizAccess) && attempts == old(attempts)
      ensures r.status == 200 <==> FindQuiz(quizzes, quizId).Some? && Visible(FindQuiz(quizzes, quizId).value, Some(userId))
      ensures r.status == 200 ==>
                && |attempts| == |old(attempts)| + 1 && attempts[..|old(attempts)|] == old(attempts)
                && var a := attempts[|old(attempts)|];
                   && fresh(a) && a.id == old(nextAttemptId) && a.userId == userId && a.quizId == quizId
                   && a.startedAt == now && a.completedAt.None? && a.answersJson.None?
                   && "attempt_id" in r.body && "quiz" in r.body && r.body["attempt_id"] == JInt(a.id)
                   && var z := FindQuiz(quizzes, quizId).value;
                      r.body["quiz"] == JObj(QuizDict(z, Username(names, z.creatorId), true))
    {
      var found := FindQuiz(quizzes, quizId);
      if found.None? {
        return Missing(h, StartError);
      }
      var z := found.value;
      if !Visible(z, Some(userId)) {
        return Refused(403, NoQuizAccess);
      }
      var attempt := new QuizAttempt(nextAttemptId, userId, quizId, now);
      attempts := attempts + [attempt];
      nextAttemptId := nextAttemptId + 1;
      var quizData := QuizDict(z, Username(names, z.creatorId), true);
      StrippingQuizDictIsIdle(z, Username(names, z.creatorId));
      var questions := StripQuestions(QuestionDicts(z.questions));
      assert questions == QuestionDicts(z.questions);
      assert quizData["questions" := JArr(questions)] == quizData;
      r := Response(200, map["success" := JBool(true), "message" := JStr(QuizStarted),
                             "attempt_id" := JInt(attempt.id), "quiz" := JObj(quizData["questions" := JArr(questions)])]);
    }

    /** `submit_quiz`: the user completes their own open attempt with the
        body's answers (default {}); completion time, time taken and score
        are written and committed. `percentage` is the reply's percentage
        on success. */
    method SubmitQuiz(attemptId: int, userId: int, data: Json, now: int, h: NotFoundHandling)
      returns (r: Response, percentage: Option<real>)
      requires Valid()
      modifies attempts
      ensures Valid() && unchanged(this)
      ensures FindAttempt(attemptId).None? ==> r == Missing(h, SubmitError)
      ensures FindAttempt(attemptId).Some? ==>
                var a := FindAttempt(attemptId).value;
                && (a.userId != userId ==> r == Refused(403, NoAttemptAccess))
                && (a.userId == userId && old(a.completedAt).Some? ==> r == Refused(400, AlreadyCompleted))
                && (r.status == 200 ==> data.JObj? && var answers := GetOr(data.fields, "answers", JObj(map[]));
                      a.userId == userId && old(a.completedAt).None?
                      && FindQuiz(quizzes, a.quizId).Some?
                      && Completed(a, answers, FindQuiz(quizzes, a.quizId).value, now, a.startedAt)
                      && "score" in r.body && "max_score" in r.body
                      && r.body["score"] == JInt(a.score.value) && r.body["max_score"] == JInt(a.maxScore.value)
                      && percentage == a.percentage)
                && (r.status != 200 ==> unchanged(a))
                && (a.userId == userId && old(a.completedAt).None? ==>
                      (r.status == 200 <==>
                         && data.JObj? && FindQuiz(quizzes, a.quizId).Some?
                         && ScoreRuns(FindQuiz(quizzes, a.quizId).value.questions, GetOr(data.fields, "answers", JObj(map[])))))
      ensures forall b :: b in attempts && (FindAttempt(attemptId).None? || b != FindAttempt(attemptId).value) ==> unchanged(b)
    {
      var found := FindAttempt(attemptId);
      if found.None? {
        return Missing(h, SubmitError), None;
      }
      var a := found.value;
      if a.userId != userId {
        return Refused(403, NoAttemptAccess), None;
      }
      if a.completedAt.Some? {
        return Refused(400, AlreadyCompleted), None;
      }
      if !data.JObj? {
        return Refused(500, Failure(SubmitError)), None;
      }
      var answers := GetOr(data.fields, "answers", JObj(map[]));
      var quiz := FindQuiz(quizzes, a.quizId);
      if quiz.None? || !ScoreRuns(quiz.value.questions, answers) {
        return Refused(500, Failure(SubmitError)), None;
      }
      CompleteAttempt(a, answers, quiz.value, now);
      r := Response(200, map["success" := JBool(true), "message" := JStr(QuizFinished),
                             "score" := JInt(a.score.value), "max_score" := JInt(a.maxScore.value)]);
      percentage := a.percentage;
    }
  }

  /** The first attempt with the id. */
  function FirstAttempt(attempts: seq<QuizAttempt>, id: int): (r: Option<QuizAttempt>)
    ensures r.Some? ==> r.value in attempts && r.value.id == id
    ensures r.None? ==> forall a :: a in attempts ==> a.id != id
  {
    if attempts == [] then None
    else if attempts[0].id == id then Some(attempts[0])
    else FirstAttempt(attempts[1..], id)
  }

  /** What `submit_quiz` writes on the attempt before committing:
      the answers, the completion time, the time taken and the score. */
  method CompleteAttempt(a: QuizAttempt, answers: Json, z: Quiz, now: int)
    requires ScoreRuns(z.questions, answers)
    modifies a
    ensures Completed(a, answers, z, now, a.startedAt)
  {
    a.SetAnswers(answers);
    a.completedAt := Some(now);
    a.timeTaken := Some(now - a.startedAt);
    var ok := a.CalculateScore(z);
  }

  /** Submitting an attempt a second time is refused with 400, and the
      first submission's results stay. */
  method SubmitTwice(store: QuizStore, attemptId: int, userId: int, first: Json, second: Json, now: int, later: int, h: NotFoundHandling)
    returns (r1: Response, r2: Response)
    requires store.Valid()
    modifies store.attempts
    ensures r1.status == 200 ==> r2 == Refused(400, AlreadyCompleted)
    ensures r1.status == 200 ==>
              (first.JObj? && store.FindAttempt(attemptId).Some? &&
               var a := store.FindAttempt(attemptId).value;
               a.answersJson == Some(GetOr(first.fields, "answers", JObj(map[]))) && a.completedAt == Some(now))
  {
    var p;
    r1, p := store.SubmitQuiz(attemptId, userId, first, now, h);
    r2, p := store.SubmitQuiz(attemptId, userId, second, later, h);
  }
}
