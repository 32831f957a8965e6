/** src/pages/CreateQuiz.jsx: the editor that creates a quiz or edits one.
    The page holds the quiz being built, the question being drafted and
    the index of the question being edited, if any. The question list is
    edited by pure transforms (`map`, `filter`, spread); the handlers in
    Editor apply them to the page's state. */
module QuizEditor {
  import opened Common
  import QuizStore

  const EmptyQuestionAlert := "Pytanie nie może być puste!"
  const BlankOptionAlert := "Wszystkie opcje odpowiedzi muszą być wypełnione!"
  const MissingTitleAlert := "Tytuł quizu jest wymagany!"
  const NoQuestionsAlert := "Quiz musi zawierać przynajmniej jedno pytanie!"

  datatype Question = Question(question: string, options: seq<string>, correctAnswer: int, explanation: string)

  /** The draft after a reset: no text, four empty options, the first one
      correct. */
  const EmptyDraft := Question("", ["", "", "", ""], 0, "")

  /** `s.trim() === ''`. */
  predicate Blank(s: string) {
    JsTrim(s) == []
  }

  /** The checks addQuestion makes before it changes anything. */
  function DraftAlert(q: Question): (r: Option<string>)
    ensures Blank(q.question) ==> r == Some(EmptyQuestionAlert)
    ensures !Blank(q.question) && (exists k :: 0 <= k < |q.options| && Blank(q.options[k])) ==> r == Some(BlankOptionAlert)
    ensures r.None? <==> !Blank(q.question) && forall k :: 0 <= k < |q.options| ==> !Blank(q.options[k])
  {
    if Blank(q.question) then Some(EmptyQuestionAlert)
    else if exists k :: 0 <= k < |q.options| && Blank(q.options[k]) then Some(BlankOptionAlert)
    else None
  }

  /** `qs.map((x, i) => i === index ? v : x)`. */
  function ReplaceAt<T>(qs: seq<T>, index: int, v: T): (r: seq<T>)
    ensures |r| == |qs|
    ensures forall j :: 0 <= j < |qs| ==> r[j] == if j == index then v else qs[j]
  {
    if qs == [] then []
    else
      var n := |qs| - 1;
      ReplaceAt(qs[..n], index, v) + [if n == index then v else qs[n]]
  }

  /** `qs.filter((_, i) => i !== index)`: the list without the item at
      the index, or the same list for an index that is not one of its. */
  function RemoveAt<T>(qs: seq<T>, index: int): (r: seq<T>)
    ensures 0 <= index < |qs| ==> r == qs[..index] + qs[index + 1..]
    ensures !(0 <= index < |qs|) ==> r == qs
  {
    if qs == [] then []
    else
      var n := |qs| - 1;
      var init := RemoveAt(qs[..n], index);
      if n == index then
        assert qs[..n] == qs[..index] + qs[index + 1..];
        init
      else
        assert qs == qs[..n] + [qs[n]];
        init + [qs[n]]
  }

  /** handleOptionChange on the draft: only the option at the index
      changes. */
  function SetOption(q: Question, index: int, value: string): (r: Question)
    ensures r.question == q.question && r.correctAnswer == q.correctAnswer && r.explanation == q.explanation
    ensures |r.options| == |q.options|
    ensures forall k :: 0 <= k < |q.options| && k != index ==> r.options[k] == q.options[k]
    ensures 0 <= index < |q.options| ==> r.options[index] == value
  {
    q.(options := ReplaceAt(q.options, index, value))
  }

  /** What handleSubmit hands to the quiz store. */
  datatype Submission =
    | Refused(alert: string)
    | Update(id: Json, quiz: map<string, Json>)
    | Add(quiz: map<string, Json>)

  /** `{ ...m, key: now }`: the map with one time stamp set. */
  function Stamped(m: map<string, Json>, key: string, now: string): (r: map<string, Json>)
    ensures r.Keys == m.Keys + {key} && r[key] == JStr(now)
    ensures forall k :: k in m && k != key ==> r[k] == m[k]
  {
    m + map[key := JStr(now)]
  }

  /** `title` and `questionCount` are the form data's title and number
      of questions. */
  predicate FormFields(data: map<string, Json>, title: string, questionCount: nat) {
    && ("title" in data ==> data["title"] == JStr(title))
    && ("questions" in data && data["questions"].JArr? ==> |data["questions"].items| == questionCount)
  }

  /** handleSubmit: a title that is not blank and at least one question
      are required; the saved quiz is the form's data with lastModified,
      and only a new quiz gets createdAt, an edited one keeping the
      createdAt it has. `title` is the form's title and `questionCount`
      its number of questions; `editingId` is the id of the quiz being
      edited, if any; `now` the ISO time text. */
  function Submit(title: string, questionCount: nat, data: map<string, Json>, editingId: Option<Json>, now: string): (r: Submission)
    requires FormFields(data, title, questionCount)
    ensures r.Refused? <==> Blank(title) || questionCount == 0
    ensures Blank(title) ==> r == Refused(MissingTitleAlert)
    ensures !Blank(title) && questionCount == 0 ==> r == Refused(NoQuestionsAlert)
    ensures r.Update? <==> !r.Refused? && editingId.Some?
    ensures r.Update? ==> r.id == editingId.value && r.quiz.Keys == data.Keys + {"lastModified"}
    ensures r.Add? ==> r.quiz.Keys == data.Keys + {"lastModified", "createdAt"} && r.quiz["createdAt"] == JStr(now)
    ensures !r.Refused? ==> "lastModified" in r.quiz && r.quiz["lastModified"] == JStr(now)
    ensures !r.Refused? ==> forall k :: k in data && k != "lastModified" && k != "createdAt" ==> k in r.quiz && r.quiz[k] == data[k]
  {
    if Blank(title) then Refused(MissingTitleAlert)
    else if questionCount == 0 then Refused(NoQuestionsAlert)
    else
      var toSave := Stamped(data, "lastModified", now);
      match editingId
      case Some(id) => Update(id, toSave)
      case None => Add(Stamped(toSave, "createdAt", now))
  }

  /** Saving an edited quiz keeps the createdAt it has. */
  lemma EditKeepsCreatedAt(title: string, questionCount: nat, data: map<string, Json>, id: Json, now: string)
    requires FormFields(data, title, questionCount)
    requires !Blank(title) && questionCount > 0 && "createdAt" in data
    ensures Submit(title, questionCount, data, Some(id), now) == Update(id, Stamped(data, "lastModified", now))
    ensures Submit(title, questionCount, data, Some(id), now).quiz["createdAt"] == data["createdAt"]
  {
  }

  class Editor {
    var questions: seq<Question>
    var draft: Question
    /** editingQuestionIndex; None is null. */
    var editing: Option<int>
    var hasChanges: bool

    /** A new quiz starts with no questions; an edited one with its own. */
    constructor (questions: seq<Question>)
      ensures this.questions == questions && draft == EmptyDraft && editing.None? && !hasChanges
    {
      this.questions := questions;
      draft := EmptyDraft;
      editing := None;
      hasChanges := false;
    }

    /** handleOptionChange. */
    method ChangeOption(index: int, value: string)
      modifies this
      ensures draft == SetOption(old(draft), index, value) && hasChanges
      ensures questions == old(questions) && editing == old(editing)
    {
      draft := draft.(options := ReplaceAt(draft.options, index, value));
      hasChanges := true;
    }

    /** handleCorrectAnswerChange. */
    method ChangeCorrectAnswer(index: int)
      modifies this
      ensures draft == old(draft).(correctAnswer := index) && hasChanges
      ensures questions == old(questions) && editing == old(editing)
    {
      draft := draft.(correctAnswer := index);
      hasChanges := true;
    }

    /** addQuestion: an incomplete draft changes nothing and gets an
        alert; a complete one replaces the question being edited, or goes
        at the end, and the draft is reset. */
    method AddQuestion() returns (alert: Option<string>)
      modifies this
      ensures alert == DraftAlert(old(draft))
      ensures alert.Some? ==> questions == old(questions) && draft == old(draft) && editing == old(editing)
      ensures alert.None? && old(editing).Some? ==>
        questions == ReplaceAt(old(questions), old(editing).value, old(draft)) && editing.None? && draft == EmptyDraft
      ensures alert.None? && old(editing).None? ==>
        questions == old(questions) + [old(draft)] && editing.None? && draft == EmptyDraft
      ensures hasChanges == old(hasChanges)
    {
      alert := DraftAlert(draft);
      if alert.Some? {
        return;
      }
      match editing {
        case Some(i) =>
          questions := ReplaceAt(questions, i, draft);
          editing := None;
        case None =>
          questions := questions + [draft];
      }
      draft := EmptyDraft;
    }

    /** editQuestion, from the edit button of a listed question. */
    method EditQuestion(index: nat)
      requires index < |questions|
      modifies this
      ensures draft == old(questions)[index] && editing == Some(index as int)
      ensures questions == old(questions) && hasChanges == old(hasChanges)
    {
      draft := questions[index];
      editing := Some(index);
    }

    /** deleteQuestion: the question at the index goes and the others keep
        their order. The index being edited is left as it was. */
    method DeleteQuestion(index: int)
      modifies this
      ensures questions == RemoveAt(old(questions), index)
      ensures draft == old(draft) && editing == old(editing) && hasChanges == old(hasChanges)
    {
      questions := RemoveAt(questions, index);
    }

    /** deleteQuestion as evidently intended: the question being edited
        keeps its draft's target, one place earlier after an earlier
        deletion, and deleting it ends the edit. */
    method DeleteQuestionTracked(index: int)
      modifies this
      ensures questions == RemoveAt(old(questions), index)
      ensures editing == EditingAfterDelete(old(editing), index, |old(questions)|)
      ensures draft == old(draft) && hasChanges == old(hasChanges)
    {
      editing := EditingAfterDelete(editing, index, |questions|);
      questions := RemoveAt(questions, index);
    }
  }

  // ---------------------------------------------------------------------
  // Properties of the edits

  /** Replacing an item changes exactly that item. */
  lemma ReplaceOnlyAt<T>(qs: seq<T>, index: nat, v: T)
    requires index < |qs|
    ensures ReplaceAt(qs, index, v) == qs[index := v]
  {
  }

  /** A complete draft added as new makes the list one longer, with the
      old questions first; an edit keeps the length. */
  lemma AddedQuestionCounts(qs: seq<Question>, editing: Option<int>, q: Question)
    ensures |ReplaceAt(qs, editing.GetOr(-1), q)| == |qs|
    ensures (qs + [q])[..|qs|] == qs && |qs + [q]| == |qs| + 1
  {
  }

  /** While question `e` is being edited, deleting an earlier question
      moves `e`'s place: the later addQuestion then overwrites the question
      that followed it and leaves the original in the list. */
  lemma DeleteWhileEditingShiftsTarget()
    ensures var qs := [EmptyDraft.(question := "a"), EmptyDraft.(question := "b"), EmptyDraft.(question := "c")];
      var edited := EmptyDraft.(question := "B");
      ReplaceAt(RemoveAt(qs, 0), 1, edited) == [qs[1], edited]
      && RemoveAt(ReplaceAt(qs, 1, edited), 0) == [edited, qs[2]]
  {
    var qs := [EmptyDraft.(question := "a"), EmptyDraft.(question := "b"), EmptyDraft.(question := "c")];
    var edited := EmptyDraft.(question := "B");
    assert RemoveAt(qs, 0) == [qs[1], qs[2]];
    assert ReplaceAt(qs, 1, edited) == [qs[0], edited, qs[2]];
  }

  /** The edited index a deletion should leave: none when the question
      being edited goes, one less when an earlier one goes. */
  function EditingAfterDelete(editing: Option<int>, deleted: int, count: nat): (r: Option<int>)
  {
    match editing
    case None => None
    case Some(e) =>
      if !(0 <= deleted < count) || deleted > e then Some(e)
      else if deleted == e then None
      else Some(e - 1)
  }

  /** With the index adjusted so, deleting and then saving the edit gives
      the same list as saving the edit and then deleting. */
  lemma DeleteThenSaveCommutes(qs: seq<Question>, e: int, deleted: int, edited: Question)
    requires 0 <= e < |qs| && deleted != e
    ensures EditingAfterDelete(Some(e), deleted, |qs|).Some?
    ensures ReplaceAt(RemoveAt(qs, deleted), EditingAfterDelete(Some(e), deleted, |qs|).value, edited)
         == RemoveAt(ReplaceAt(qs, e, edited), deleted)
  {
    var e' := EditingAfterDelete(Some(e), deleted, |qs|).value;
    if 0 <= deleted < |qs| {
      var left := ReplaceAt(RemoveAt(qs, deleted), e', edited);
      var right := RemoveAt(ReplaceAt(qs, e, edited), deleted);
      forall j | 0 <= j < |qs| - 1
        ensures left[j] == right[j]
      {
        CommutesAt(qs, e, deleted, e', edited, j);
      }
    }
  }

  /** One item of the two lists of DeleteThenSaveCommutes. */
  lemma CommutesAt(qs: seq<Question>, e: int, d: int, e': int, edited: Question, j: int)
    requires 0 <= e < |qs| && 0 <= d < |qs| && d != e && e' == (if d < e then e - 1 else e)
    requires 0 <= j < |qs| - 1
    ensures ReplaceAt(RemoveAt(qs, d), e', edited)[j] == RemoveAt(ReplaceAt(qs, e, edited), d)[j]
  {
    RemoveAtIndex(qs, d, j);
    RemoveAtIndex(ReplaceAt(qs, e, edited), d, j);
  }

  /** The item at j after removing the one at d is the item at j or j + 1
      before. */
  lemma RemoveAtIndex<T>(qs: seq<T>, d: int, j: int)
    requires 0 <= d < |qs| && 0 <= j < |qs| - 1
    ensures RemoveAt(qs, d)[j] == qs[if j < d then j else j + 1]
  {
    assert RemoveAt(qs, d) == qs[..d] + qs[d + 1..];
    if j >= d {
      assert (qs[..d] + qs[d + 1..])[j] == qs[d + 1..][j - d];
    }
  }

  /** A new quiz the form submits, once in the quiz store, keeps the
      form's fields and its creation time, under the id the store gives. */
  lemma SubmittedQuizStored(prev: seq<Json>, title: string, count: nat, data: map<string, Json>, now: string, clock: int)
    requires !Blank(title) && count > 0
    requires FormFields(data, title, count)
    ensures Submit(title, count, data, None, now).Add?
    ensures var stored := QuizStore.AddQuiz(prev, Submit(title, count, data, None, now).quiz, clock)[|prev|].fields;
      && stored["createdAt"] == JStr(now) && stored["lastModified"] == JStr(now)
      && stored["id"] == QuizStore.UserId(clock)
      && forall k :: k in data && k != "id" && k != "lastModified" && k != "createdAt" ==> stored[k] == data[k]
  {
    var q := Submit(title, count, data, None, now).quiz;
    assert "createdAt" in q && "lastModified" in q;
    assert forall k :: k in data && k != "lastModified" && k != "createdAt" ==> k in q && q[k] == data[k];
    var stored := QuizStore.AddQuiz(prev, q, clock)[|prev|].fields;
    assert forall k :: k in q && k != "id" ==> stored[k] == q[k];
  }

  /** Deleting the question being edited ends the edit: the next save
      appends the draft instead of overwriting a neighbour. */
  lemma DeletingEditedEndsEdit(e: int, count: nat)
    requires 0 <= e < count
    ensures EditingAfterDelete(Some(e), e, count).None?
  {
  }
}
