/** server.cjs: the Express server that keeps the quizzes in one JSON file,
    public/quiz.json, holding an object whose `quizzes` member is a list.
    Each /quiz handler reads the file, looks a quiz up with `find` or
    `findIndex`, edits the parsed list with `push`, an indexed assignment or
    `splice`, and writes the whole file back. The model's QuizFile holds the
    list the file stores and counts the writes. */
module QuizServer {
  import opened Common
  import opened JsArrays

  const QuizNotFound := "Quiz nie został znaleziony"
  const ReadError := "Błąd podczas odczytu pliku quizów"
  const AddError := "Błąd podczas dodawania quizu"
  const UpdateError := "Błąd podczas aktualizacji quizu"
  const DeleteError := "Błąd podczas usuwania quizu"
  const Deleted := "Quiz został usunięty"

  /** `parseInt(req.params.id)` as the value `q.id` is compared with;
      None is NaN, which is equal to nothing. */
  function ParamId(param: string): (r: Option<Json>)
    ensures r.Some? ==> r.value.JInt?
  {
    match JsParseIntAnyRadix(param)
    case Some(n) => Some(JInt(n))
    case None => None
  }

  /** JavaScript's `Number(text)` for the text forms this model reads:
      blank text is 0, and an optional sign and decimal digits, once the
      surrounding whitespace is trimmed, are their value; None is NaN. */
  function JsNumberText(s: string): Option<int> {
    var t := JsTrim(s);
    if t == "" then Some(0) else SignedDecimal(t)
  }

  /** JavaScript's `Number(v)` for a parsed JSON value; None is NaN. A
      list goes through its text, `join(',')`: the empty list is 0, a list
      of one item is that item's number (null is "", so 0; a bool's text
      is NaN), and a list of more is NaN for its comma. An object's text
      is "[object Object]". */
  function JsNumber(v: Json): Option<int> {
    match v
    case JInt(m) => Some(m)
    case JNull => Some(0)
    case JBool(b) => Some(if b then 1 else 0)
    case JStr(s) => JsNumberText(s)
    case JArr(items) =>
      if items == [] then Some(0)
      else if |items| == 1 && !items[0].JBool? then JsNumber(items[0])
      else None
    case JObj(_) => None
  }

  /** The decimal text of an integer has no whitespace to trim. */
  lemma DecimalUntrimmed(n: int)
    ensures JsTrim(IntToString(n)) == IntToString(n)
  {
    var s := IntToString(n);
    var d := NatToString(if n < 0 then -n else n);
    NatToStringDigits(if n < 0 then -n else n);
    assert s[|s| - 1] == d[|d| - 1];
    assert TrimLeft(s, IsJsSpace) == s;
    assert TrimRight(s, IsJsSpace) == s;
  }

  /** An id sent as decimal text, or as a list holding it, is its
      number; the empty list is 0. */
  lemma JsNumberOfText(n: int)
    ensures JsNumber(JStr(IntToString(n))) == Some(n)
    ensures JsNumber(JArr([JInt(n)])) == Some(n) && JsNumber(JArr([JStr(IntToString(n))])) == Some(n)
    ensures JsNumber(JArr([])) == Some(0) && JsNumber(JArr([JNull])) == Some(0)
  {
    DecimalUntrimmed(n);
    SignedDecimalOfString(n);
    assert JsNumberText(IntToString(n)) == Some(n);
  }

  /** `Number(q.id)` as Math.max converts it; None is NaN. */
  function IdNumber(q: Json): Option<int>
    requires !q.JNull?
  {
    match IdOf(q)
    case Value(v) => JsNumber(v)
    case _ => None
  }

  /** `Math.max(...ids, 0)`: the largest id, 0 at least; None as soon as
      one id is NaN. */
  function MaxId(qs: seq<Json>): (r: Option<int>)
    requires NoNull(qs)
    ensures r.Some? <==> forall i :: 0 <= i < |qs| ==> IdNumber(qs[i]).Some?
    ensures r.Some? ==> r.value >= 0 && forall i :: 0 <= i < |qs| ==> IdNumber(qs[i]).value <= r.value
    ensures r.Some? && r.value != 0 ==> exists i :: 0 <= i < |qs| && IdNumber(qs[i]) == r
  {
    if qs == [] then Some(0)
    else
      var init := qs[..|qs| - 1];
      var last := IdNumber(qs[|qs| - 1]);
      assert forall i :: 0 <= i < |init| ==> qs[i] == init[i];
      var m := MaxId(init);
      if m.None? || last.None? then None
      else if last.value > m.value then last
      else m
  }

  /** `maxId + 1`; NaN + 1 is NaN, which JSON.stringify writes as null. */
  function AssignedId(qs: seq<Json>): Json
    requires NoNull(qs)
  {
    match MaxId(qs)
    case Some(m) => JInt(m + 1)
    case None => JNull
  }

  /** `{id: maxId + 1, ...req.body}`: every key of the body, and an id that
      only a body without one leaves to the server. */
  function NewQuiz(qs: seq<Json>, body: map<string, Json>): (r: map<string, Json>)
    requires NoNull(qs)
    ensures r.Keys == body.Keys + {"id"}
    ensures forall k :: k in body ==> r[k] == body[k]
    ensures "id" !in body ==> r["id"] == AssignedId(qs)
  {
    map["id" := AssignedId(qs)] + body
  }

  /** `{...stored, ...req.body, id: quizId}`: the body's values over the
      stored ones, and the path's id whatever either said. */
  function Merge(stored: map<string, Json>, body: map<string, Json>, id: Json): (r: map<string, Json>)
    ensures r.Keys == stored.Keys + body.Keys + {"id"}
    ensures r["id"] == id
    ensures forall k :: k in body && k != "id" ==> r[k] == body[k]
    ensures forall k :: k in stored && k !in body && k != "id" ==> r[k] == stored[k]
  {
    stored + body + map["id" := id]
  }

  /** The id a server-assigned quiz gets is above every numeric id in the
      list, so no quiz already has it. */
  lemma AssignedIdIsFresh(qs: seq<Json>)
    requires NoNull(qs) && MaxId(qs).Some?
    ensures AssignedId(qs).JInt? && AssignedId(qs).n >= 1
    ensures forall i :: 0 <= i < |qs| ==> !HasId(qs[i], Some(AssignedId(qs)))
  {
    var m := MaxId(qs).value;
    forall i | 0 <= i < |qs|
      ensures !HasId(qs[i], Some(JInt(m + 1)))
    {
      assert IdNumber(qs[i]).value <= m;
    }
  }

  /** GET /quiz/:id for the stored list. */
  function GetQuiz(qs: seq<Json>, param: string): (r: Response)
    ensures var n := ParamId(param);
      && (r.status == 200 <==> Find(qs, n).At?)
      && (r.status == 200 ==> qs[Find(qs, n).i] == JObj(r.body))
      && (r.status == 404 <==> Find(qs, n).Absent?)
      && (r.status == 404 ==> r == ErrorReply(404, QuizNotFound))
      && (r.status == 500 <==> Find(qs, n).Threw?)
  {
    match Find(qs, ParamId(param))
    case At(i) => Response(200, qs[i].fields)
    case Absent => ErrorReply(404, QuizNotFound)
    case Threw(_) => ErrorReply(500, ReadError)
  }

  /** The quiz file: the list under `quizzes` and the number of times the
      file was written. */
  class QuizFile {
    var quizzes: seq<Json>
    var writes: nat

    constructor (quizzes: seq<Json>)
      ensures this.quizzes == quizzes && writes == 0
    {
      this.quizzes := quizzes;
      writes := 0;
    }

    /** POST /quiz: the new quiz goes at the end of the list and is the
        reply; a null quiz in the list makes `q.id` raise first. */
    method Post(body: map<string, Json>) returns (r: Response)
      modifies this
      ensures !NoNull(old(quizzes)) ==> r == ErrorReply(500, AddError) && quizzes == old(quizzes) && writes == old(writes)
      ensures NoNull(old(quizzes)) ==>
        var created := NewQuiz(old(quizzes), body);
        && quizzes == old(quizzes) + [JObj(created)]
        && writes == old(writes) + 1
        && r == Response(201, created)
    {
      if !NoNull(quizzes) {
        return ErrorReply(500, AddError);
      }
      var created := map["id" := AssignedId(quizzes)] + body;
      quizzes := quizzes + [JObj(created)];
      writes := writes + 1;
      r := Response(201, created);
    }

    /** PUT /quiz/:id: the first quiz with the id gets the body merged
        over it and keeps the id; an unknown id is a 404 and the file is
        not written. */
    method Put(param: string, body: map<string, Json>) returns (r: Response)
      modifies this
      ensures var s := Find(old(quizzes), ParamId(param));
        && (s.Absent? ==> r == ErrorReply(404, QuizNotFound) && quizzes == old(quizzes) && writes == old(writes))
        && (s.Threw? ==> r == ErrorReply(500, UpdateError) && quizzes == old(quizzes) && writes == old(writes))
        && (s.At? ==>
              var merged := Merge(old(quizzes)[s.i].fields, body, ParamId(param).value);
              && quizzes == old(quizzes)[s.i := JObj(merged)]
              && writes == old(writes) + 1
              && r == Response(200, merged))
    {
      var quizId := ParamId(param);
      var s := Find(quizzes, quizId);
      match s
      case Absent =>
        r := ErrorReply(404, QuizNotFound);
      case Threw(_) =>
        r := ErrorReply(500, UpdateError);
      case At(i) =>
        var merged := quizzes[i].fields + body + map["id" := quizId.value];
        quizzes := quizzes[i := JObj(merged)];
        writes := writes + 1;
        r := Response(200, merged);
    }

    /** DELETE /quiz/:id: `splice` takes out the first quiz with the id and
        keeps the rest in order; an unknown id is a 404 and the file is not
        written. */
    method Delete(param: string) returns (r: Response)
      modifies this
      ensures var s := Find(old(quizzes), ParamId(param));
        && (s.Absent? ==> r == ErrorReply(404, QuizNotFound) && quizzes == old(quizzes) && writes == old(writes))
        && (s.Threw? ==> r == ErrorReply(500, DeleteError) && quizzes == old(quizzes) && writes == old(writes))
        && (s.At? ==>
              && quizzes == old(quizzes)[..s.i] + old(quizzes)[s.i + 1..]
              && writes == old(writes) + 1
              && r == Response(200, map["success" := JBool(true), "message" := JStr(Deleted)]))
    {
      var s := Find(quizzes, ParamId(param));
      match s
      case Absent =>
        r := ErrorReply(404, QuizNotFound);
      case Threw(_) =>
        r := ErrorReply(500, DeleteError);
      case At(i) =>
        quizzes := quizzes[..i] + quizzes[i + 1..];
        writes := writes + 1;
        r := Response(200, map["success" := JBool(true), "message" := JStr(Deleted)]);
    }
  }

  // ---------------------------------------------------------------------
  // How the handlers compose

  /** A quiz posted without an id of its own is what a GET of the assigned
      id then finds. */
  lemma PostThenGet(qs: seq<Json>, body: map<string, Json>)
    requires NoNull(qs) && MaxId(qs).Some? && "id" !in body
    ensures var created := NewQuiz(qs, body);
      GetQuiz(qs + [JObj(created)], IntToString(AssignedId(qs).n)) == Response(200, created)
  {
    var created := NewQuiz(qs, body);
    var after := qs + [JObj(created)];
    var id := AssignedId(qs).n;
    AssignedIdIsFresh(qs);
    JsParseIntAnyRadixOfString(id);
    forall j | 0 <= j < |qs|
      ensures PassedOver(after[j], Some(JInt(id)))
    {
      assert after[j] == qs[j];
    }
    FindIsFirst(after, Some(JInt(id)), |qs|);
  }

  /** After a PUT the same GET finds the merged quiz, where the quiz was. */
  lemma PutThenGet(qs: seq<Json>, param: string, body: map<string, Json>)
    requires Find(qs, ParamId(param)).At?
    ensures var i := Find(qs, ParamId(param)).i;
      var merged := Merge(qs[i].fields, body, ParamId(param).value);
      GetQuiz(qs[i := JObj(merged)], param) == Response(200, merged)
  {
    var n := ParamId(param);
    var i := Find(qs, n).i;
    var merged := Merge(qs[i].fields, body, n.value);
    var after := qs[i := JObj(merged)];
    assert HasId(after[i], n);
    FindIsFirst(after, n, i);
  }

  /** After a DELETE the scan for the same id goes on where the deleted
      quiz was: it finds the next quiz with that id, if any, one place
      earlier than before. */
  lemma DeleteThenFind(qs: seq<Json>, n: Option<Json>)
    requires Find(qs, n).At?
    ensures var i := Find(qs, n).i;
      var after := qs[..i] + qs[i + 1..];
      var next := FindFrom(qs, n, i + 1);
      Find(after, n) == (match next case At(j) => At(j - 1) case Threw(j) => Threw(j - 1) case Absent => Absent)
  {
    var i := Find(qs, n).i;
    var after := qs[..i] + qs[i + 1..];
    ShiftedScan(qs, after, n, i);
  }

  /** The list with index i taken out scans, from i on, as the original
      from i + 1 on, one place earlier. */
  lemma {:induction false} ShiftedScan(qs: seq<Json>, after: seq<Json>, n: Option<Json>, i: nat)
    requires i < |qs| && after == qs[..i] + qs[i + 1..]
    requires forall j :: 0 <= j < i ==> PassedOver(qs[j], n)
    ensures Find(after, n) == (match FindFrom(qs, n, i + 1) case At(j) => At(j - 1) case Threw(j) => Threw(j - 1) case Absent => Absent)
  {
    var next := FindFrom(qs, n, i + 1);
    forall j | 0 <= j < |after|
      ensures after[j] == if j < i then qs[j] else qs[j + 1]
    {
    }
    match next
    case Absent =>
      FindFromNone(after, n, 0);
    case At(j) =>
      FindIsFirst(after, n, j - 1);
    case Threw(j) =>
      FindIsFirst(after, n, j - 1);
  }

  /** A DELETE that succeeds takes out exactly one quiz. */
  lemma DeleteRemovesOne(qs: seq<Json>, i: nat)
    requires i < |qs|
    ensures multiset(qs[..i] + qs[i + 1..]) + multiset{qs[i]} == multiset(qs)
    ensures |qs[..i] + qs[i + 1..]| == |qs| - 1
  {
    assert qs == qs[..i] + [qs[i]] + qs[i + 1..];
  }
}
