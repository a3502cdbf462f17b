/** The applicant's form for one tender: answers are kept per question, the
    checkbox questions accumulate ticked options, and submission is refused
    while a required answer is missing. */
module TenderForm {
  import opened Base
  import opened Lists
  import opened JsText
  import opened TenderSchema

  /** `!responses[id] || responses[id] === ''`: the answer is absent or is the
      empty string. The empty string is the only falsy answer: a list, even an
      empty one, is truthy. */
  predicate IsMissing(responses: Answers, id: string)
  {
    id !in responses || responses[id] == Str("")
  }

  predicate IsRequired(q: Question)
  {
    q.isRequired
  }

  /** The test `q => !responses[q.id] || responses[q.id] === ''`. */
  function MissingIn(responses: Answers): Question -> bool
  {
    (q: Question) => IsMissing(responses, q.id)
  }

  /** `requiredQuestions.filter(...)`: the required questions whose answer is
      missing; submission is blocked exactly when this is non-empty. */
  function MissingRequired(questions: seq<Question>, responses: Answers): (r: seq<Question>)
    ensures forall q :: q in r <==> q in questions && q.isRequired && IsMissing(responses, q.id)
    ensures r == [] <==> forall q :: q in questions && q.isRequired ==> !IsMissing(responses, q.id)
  {
    var r := Filter(Filter(questions, IsRequired), MissingIn(responses));
    assert r != [] ==> r[0] in r;
    r
  }

  /** A required checkbox question answered with the empty list does not
      block submission. */
  lemma EmptyListIsNotMissing(q: Question, responses: Answers)
    requires q.isRequired && q.qtype == Checkbox
    ensures MissingRequired([q], responses[q.id := List([])]) == []
  {
    assert !IsMissing(responses[q.id := List([])], q.id);
  }

  /** When no question is required nothing ever blocks submission. */
  lemma OptionalNeverBlocks(questions: seq<Question>, responses: Answers)
    requires forall i :: 0 <= i < |questions| ==> !questions[i].isRequired
    ensures MissingRequired(questions, responses) == []
  {
  }

  /** The answer to a question that is not required has no bearing on whether
      submission is blocked. */
  lemma OptionalAnswerIrrelevant(questions: seq<Question>, responses: Answers, id: string, a: Answer)
    requires forall q :: q in questions && q.id == id ==> !q.isRequired
    ensures MissingRequired(questions, responses[id := a]) == MissingRequired(questions, responses)
  {
    var required := Filter(questions, IsRequired);
    forall i | 0 <= i < |required|
      ensures MissingIn(responses[id := a])(required[i]) == MissingIn(responses)(required[i])
    {
      assert required[i] in required;
    }
    FilterAgree(required, MissingIn(responses[id := a]), MissingIn(responses));
  }

  /** `[...value]`: a string spread into its characters. */
  function Chars(s: string): (r: seq<string>)
    ensures |r| == |s|
    ensures forall i :: 0 <= i < |s| ==> r[i] == [s[i]]
  {
    seq(|s|, i requires 0 <= i < |s| => [s[i]])
  }

  /** `responses[id] || []` as the list the toggle spreads: a list answer, the
      characters of a non-empty string, or nothing. */
  function CurrentChoices(current: Option<Answer>): seq<string>
  {
    match current
    case None => []
    case Some(Str(s)) => Chars(s)
    case Some(List(items)) => items
  }

  /** The checkbox's `checked` state: `responses[id]?.includes?.(option)`. */
  predicate IsTicked(current: Option<Answer>, option: string)
  {
    match current
    case None => false
    case Some(Str(s)) => Includes(s, option)
    case Some(List(items)) => option in items
  }

  /** The checkbox handler: ticking appends the option to the current list,
      unticking removes every copy of it. `None` is the case where the handler
      throws (unticking while the answer is a non-empty string, which has no
      `filter`), and the answers stay as they were. */
  function Toggle(current: Option<Answer>, option: string, checked: bool): (r: Option<Answer>)
    ensures r.None? <==> !checked && current.Some? && current.value.Str? && current.value.s != ""
    ensures checked ==> r == Some(List(CurrentChoices(current) + [option]))
    ensures !checked && r.Some? ==> r == Some(List(RemoveAll(CurrentChoices(current), option)))
  {
    if checked then Some(List(CurrentChoices(current) + [option]))
    else match current
      case Some(Str(s)) => if s == "" then Some(List([])) else None
      case _ => Some(List(RemoveAll(CurrentChoices(current), option)))
  }

  /** After ticking, the box shows ticked; after unticking, it shows clear. */
  lemma ToggleShows(current: Option<Answer>, option: string, checked: bool)
    requires Toggle(current, option, checked).Some?
    ensures IsTicked(Toggle(current, option, checked), option) == checked
  {
  }

  /** Unticking keeps the other ticked options in order and with their
      multiplicities. */
  lemma UntickKeepsOthers(items: seq<string>, option: string)
    ensures Toggle(Some(List(items)), option, false).value.items == RemoveAll(items, option)
    ensures IsSubsequence(RemoveAll(items, option), items)
    ensures forall o :: o != option ==> multiset(RemoveAll(items, option))[o] == multiset(items)[o]
  {
    RemoveAllKeepsOthers(items, option);
  }

  /** Ticking an option that was not ticked and unticking it again restores the
      list. */
  lemma TickThenUntick(items: seq<string>, option: string)
    requires option !in items
    ensures Toggle(Toggle(Some(List(items)), option, true), option, false) == Some(List(items))
  {
    RemoveAllAppended(items, option);
  }

  /** The record inserted into `tender_form_responses`. */
  datatype Submission = Submission(tenderId: string, userId: string, responses: Answers)

  /** The open form's state. */
  class FormSession {
    const tenderId: string
    var questions: seq<Question>
    var responses: Answers
    var loading: bool
    var submitting: bool
    var closed: bool

    constructor (tender: string)
      ensures tenderId == tender
      ensures questions == [] && responses == map[] && loading && !submitting && !closed
    {
      tenderId := tender;
      questions := [];
      responses := map[];
      loading := true;
      submitting := false;
      closed := false;
    }

    /** The questions of the tender arrive, or the fetch fails and the list
        stays; loading ends either way. */
    method LoadQuestions(fetched: Option<seq<Question>>)
      modifies this
      ensures questions == if fetched.Some? then fetched.value else old(questions)
      ensures !loading
      ensures responses == old(responses) && submitting == old(submitting) && closed == old(closed)
    {
      if fetched.Some? {
        questions := fetched.value;
      }
      loading := false;
    }

    /** `handleResponseChange`: only the question's own key changes. */
    method SetAnswer(id: string, value: Answer)
      modifies this
      ensures id in responses && responses[id] == value
      ensures responses.Keys == old(responses).Keys + {id}
      ensures forall k :: k in old(responses) && k != id ==> responses[k] == old(responses)[k]
      ensures questions == old(questions) && loading == old(loading)
      ensures submitting == old(submitting) && closed == old(closed)
    {
      responses := responses[id := value];
    }

    /** A checkbox option is ticked or unticked. */
    method ToggleOption(id: string, option: string, checked: bool)
      modifies this
      ensures var current := if id in old(responses) then Some(old(responses)[id]) else None;
        responses == match Toggle(current, option, checked)
          case None => old(responses)
          case Some(a) => old(responses)[id := a]
      ensures questions == old(questions) && loading == old(loading)
      ensures submitting == old(submitting) && closed == old(closed)
    {
      var current := if id in responses then Some(responses[id]) else None;
      var next := Toggle(current, option, checked);
      if next.Some? {
        SetAnswer(id, next.value);
      }
    }

    /** `handleSubmit`: nothing without a user; nothing but an error message
        while a required answer is missing; otherwise the answers are sent as
        they are, and the form closes only if the insert succeeds. The answers
        are never cleared. */
    method Submit(user: Option<string>, outcome: Outcome) returns (sent: Option<Submission>)
      requires !submitting
      modifies this
      ensures user == None ==> sent == None
      ensures user.Some? && MissingRequired(questions, responses) != [] ==> sent == None
      ensures user.Some? && MissingRequired(questions, responses) == [] ==>
        sent == Some(Submission(tenderId, user.value, responses))
      ensures closed == (old(closed) || (sent.Some? && outcome == Ok))
      ensures !submitting
      ensures responses == old(responses) && questions == old(questions) && loading == old(loading)
    {
      if user == None {
        return None;
      }
      if MissingRequired(questions, responses) != [] {
        return None;
      }
      submitting := true;
      sent := Some(Submission(tenderId, user.value, responses));
      if outcome == Ok {
        closed := true;
      }
      submitting := false;
    }
  }
}
