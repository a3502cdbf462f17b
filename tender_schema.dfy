/** The application-form schema shared by the question editor, the applicant's
    form and the response viewer. */
module TenderSchema {
  import opened Base
  import opened Lists

  /** The five kinds of question the editor offers. */
  datatype QuestionType = Text | Textarea | Select | Radio | Checkbox

  /** A row of `tender_form_questions`. */
  datatype Question = Question(
    id: string,
    tenderId: string,
    text: string,
    qtype: QuestionType,
    options: Option<seq<string>>,
    isRequired: bool,
    orderIndex: int)

  /** One stored answer: a string from a text, select or radio input, or the
      list of ticked options of a checkbox question. */
  datatype Answer = Str(s: string) | List(items: seq<string>)

  /** The answers of one applicant, keyed by question id. */
  type Answers = map<string, Answer>

  /** Whether a question type offers a fixed list of choices. */
  predicate HasChoices(t: QuestionType)
  {
    t == Select || t == Radio || t == Checkbox
  }

  /** The test `q => q.id === id`. */
  function IdIs(id: string): Question -> bool
  {
    (q: Question) => q.id == id
  }

  /** `questions.findIndex(q => q.id === id)`. */
  function FindIndexById(questions: seq<Question>, id: string): int
  {
    FindIndex(questions, IdIs(id))
  }
}
