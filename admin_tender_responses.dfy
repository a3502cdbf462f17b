/** The admin viewer of submitted applications: every stored answer is shown
    with the text of its question and a printable value. */
module AdminTenderResponses {
  import opened Base
  import opened JsText
  import opened TenderSchema

  /** `questions[k]` is the first question with that id. */
  predicate FirstWithId(questions: seq<Question>, id: string, k: nat)
    requires k < |questions|
  {
    questions[k].id == id && forall j :: 0 <= j < k ==> questions[j].id != id
  }

  /** `getQuestionById`: `questions.find(q => q.id === id)`. */
  function QuestionById(questions: seq<Question>, id: string): (r: Option<Question>)
    ensures r.None? <==> forall j :: 0 <= j < |questions| ==> questions[j].id != id
    ensures r.Some? ==> r.value.id == id
    ensures r.Some? ==> exists k :: 0 <= k < |questions| && FirstWithId(questions, id, k) && questions[k] == r.value
  {
    var k := FindIndexById(questions, id);
    if k == -1 then None else Some(questions[k])
  }

  /** `String(answer)`: a string as it is, an array joined with `','`. */
  function JsString(answer: Answer): string
  {
    match answer
    case Str(s) => s
    case List(items) => Join(items, ",")
  }

  /** `formatResponse`: a list answer to a checkbox question is joined with
      `', '`; everything else, an unknown question included, goes through
      `String`. */
  function FormatResponse(questions: seq<Question>, id: string, answer: Answer): (r: string)
    ensures QuestionById(questions, id).None? ==> r == JsString(answer)
    ensures answer.Str? ==> r == answer.s
    ensures (QuestionById(questions, id).Some? && QuestionById(questions, id).value.qtype == Checkbox
             && answer.List?) ==> r == Join(answer.items, ", ")
    ensures (QuestionById(questions, id).Some?
             && !(QuestionById(questions, id).value.qtype == Checkbox && answer.List?)) ==> r == JsString(answer)
  {
    match QuestionById(questions, id)
    case None => JsString(answer)
    case Some(q) =>
      if q.qtype == Checkbox && answer.List? then Join(answer.items, ", ")
      else JsString(answer)
  }

  /** The label of an answer whose question is gone or has no text. */
  const UnknownQuestion: string := "Невідоме питання"

  /** `question?.question || 'Невідоме питання'`. */
  function RowLabel(questions: seq<Question>, id: string): (r: string)
    ensures r != ""
    ensures QuestionById(questions, id).None? ==> r == UnknownQuestion
    ensures QuestionById(questions, id).Some? && QuestionById(questions, id).value.text != "" ==>
      r == QuestionById(questions, id).value.text
    ensures QuestionById(questions, id).Some? && QuestionById(questions, id).value.text == "" ==>
      r == UnknownQuestion
  {
    match QuestionById(questions, id)
    case None => UnknownQuestion
    case Some(q) => if q.text != "" then q.text else UnknownQuestion
  }

  /** The same checkbox answer prints differently once its question has been
      deleted: the separator falls back from `', '` to `','`. */
  lemma DeletedQuestionChangesSeparator(q: Question)
    requires q.qtype == Checkbox
    ensures FormatResponse([q], q.id, List(["a", "b"])) == "a, b"
    ensures FormatResponse([], q.id, List(["a", "b"])) == "a,b"
  {
    assert FindIndexById([q], q.id) == 0;
  }

  /** One rendered answer: the React key, the heading and the printed value. */
  datatype Row = Row(key: string, heading: string, value: string)

  /** `entries` lists the answers map the way `Object.entries` does: every key
      once, each with its value. */
  predicate Enumerates(entries: seq<(string, Answer)>, answers: Answers)
  {
    (forall i :: 0 <= i < |entries| ==> entries[i].0 in answers && answers[entries[i].0] == entries[i].1)
    && (forall k :: k in answers ==> exists i :: 0 <= i < |entries| && entries[i].0 == k)
    && (forall i, j :: 0 <= i < j < |entries| ==> entries[i].0 != entries[j].0)
  }

  /** The row of one answer. */
  function RenderRow(questions: seq<Question>, id: string, answer: Answer): Row
  {
    Row(id, RowLabel(questions, id), FormatResponse(questions, id, answer))
  }

  /** The rows of one response, in the order of its entries. */
  function RenderRows(questions: seq<Question>, entries: seq<(string, Answer)>): (rows: seq<Row>)
    ensures |rows| == |entries|
    ensures forall i :: 0 <= i < |rows| ==> rows[i] == RenderRow(questions, entries[i].0, entries[i].1)
  {
    if entries == [] then []
    else [RenderRow(questions, entries[0].0, entries[0].1)] + RenderRows(questions, entries[1..])
  }

  /** Every answer has a row that prints it under its question's heading. */
  predicate EveryAnswerShown(questions: seq<Question>, answers: Answers, rows: seq<Row>)
  {
    forall k :: k in answers ==>
      exists i :: 0 <= i < |rows| && rows[i] == Row(k, RowLabel(questions, k), FormatResponse(questions, k, answers[k]))
  }

  /** No two rows share a key, and every key is one of the answers'. */
  predicate KeysOnceFrom(rows: seq<Row>, answers: Answers)
  {
    (forall i, j :: 0 <= i < j < |rows| ==> rows[i].key != rows[j].key)
    && (forall i :: 0 <= i < |rows| ==> rows[i].key in answers)
  }

  /** No answer is dropped and none is shown twice: every key of the answers
      map has exactly one row, which prints that key's answer under its
      question's heading. */
  lemma EveryAnswerOneRow(questions: seq<Question>, entries: seq<(string, Answer)>, answers: Answers)
    requires Enumerates(entries, answers)
    ensures EveryAnswerShown(questions, answers, RenderRows(questions, entries))
    ensures KeysOnceFrom(RenderRows(questions, entries), answers)
  {
    var rows := RenderRows(questions, entries);
    forall k | k in answers
      ensures exists i :: 0 <= i < |rows| && rows[i] == Row(k, RowLabel(questions, k), FormatResponse(questions, k, answers[k]))
    {
      var i :| 0 <= i < |entries| && entries[i].0 == k;
      assert rows[i] == RenderRow(questions, k, answers[k]);
    }
    forall i, j | 0 <= i < j < |rows|
      ensures rows[i].key != rows[j].key
    {
      assert rows[i].key == entries[i].0 && rows[j].key == entries[j].0;
    }
  }
}
