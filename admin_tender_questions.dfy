/** The admin editor of a tender's application form: questions are created and
    edited in a dialog with a draft list of choices, and reordered by swapping
    `order_index` with a neighbour. */
module AdminTenderQuestions {
  import opened Base
  import opened Lists
  import opened JsText
  import opened TenderSchema

  // ------------------------------------------------------------ saving

  /** The draft edited in the dialog. */
  datatype QuestionForm = QuestionForm(
    text: string, qtype: QuestionType, options: seq<string>, isRequired: bool, orderIndex: int)

  /** The record sent to `tender_form_questions`. */
  datatype Payload = Payload(
    tenderId: string, text: string, qtype: QuestionType, options: Option<seq<string>>,
    isRequired: bool, orderIndex: int)

  /** `opt.trim() !== ''`. */
  predicate NotBlank(option: string)
  {
    Trim(option) != ""
  }

  /** A choice survives the clean-up exactly when it has a character that is
      not white space. */
  lemma NotBlankIffHasText()
    ensures forall option :: NotBlank(option) <==> !IsBlank(option)
  {
    forall option ensures NotBlank(option) <==> !IsBlank(option) {
      TrimEmptyIffBlank(option);
    }
  }

  /** The `options` column of the payload: the non-blank draft choices, in
      their order, for the three choice types; null for text questions. */
  function SavedOptions(qtype: QuestionType, drafts: seq<string>): (r: Option<seq<string>>)
    ensures r.Some? <==> HasChoices(qtype)
    ensures r.Some? ==> forall o :: o in r.value <==> o in drafts && !IsBlank(o)
    ensures r.Some? ==> IsSubsequence(r.value, drafts)
    ensures r.Some? ==> forall o :: multiset(r.value)[o] == if IsBlank(o) then 0 else multiset(drafts)[o]
  {
    if HasChoices(qtype) then
      NotBlankIffHasText();
      FilterIsSubsequence(drafts, NotBlank);
      KeepsNonBlankCounts(drafts);
      Some(Filter(drafts, NotBlank))
    else None
  }

  /** The clean-up keeps every non-blank choice as often as it was drafted. */
  lemma KeepsNonBlankCounts(drafts: seq<string>)
    ensures forall o :: multiset(Filter(drafts, NotBlank))[o] == if IsBlank(o) then 0 else multiset(drafts)[o]
  {
    NotBlankIffHasText();
    forall o ensures multiset(Filter(drafts, NotBlank))[o] == if IsBlank(o) then 0 else multiset(drafts)[o] {
      FilterCounts(drafts, NotBlank, o);
    }
  }

  /** `dataToSave`. */
  function ToPayload(tenderId: string, form: QuestionForm): (p: Payload)
    ensures p.tenderId == tenderId && p.text == form.text && p.qtype == form.qtype
    ensures p.isRequired == form.isRequired && p.orderIndex == form.orderIndex
    ensures p.options == SavedOptions(form.qtype, form.options)
  {
    Payload(tenderId, form.text, form.qtype, SavedOptions(form.qtype, form.options), form.isRequired, form.orderIndex)
  }

  /** `openEditDialog`: the question's fields, with `options || ['']`. */
  function FormOf(q: Question): (f: QuestionForm)
    ensures f.text == q.text && f.qtype == q.qtype && f.isRequired == q.isRequired && f.orderIndex == q.orderIndex
    ensures f.options == if q.options.Some? then q.options.value else [""]
  {
    QuestionForm(q.text, q.qtype, if q.options.Some? then q.options.value else [""], q.isRequired, q.orderIndex)
  }

  /** A question in the shape the editor itself writes (choices without blank
      entries, no choices for text types) is saved back unchanged when it is
      opened and saved without edits. */
  lemma EditThenSaveKeepsQuestion(q: Question)
    requires HasChoices(q.qtype) ==> q.options.Some? && forall i :: 0 <= i < |q.options.value| ==> !IsBlank(q.options.value[i])
    requires !HasChoices(q.qtype) ==> q.options == None
    ensures ToPayload(q.tenderId, FormOf(q))
         == Payload(q.tenderId, q.text, q.qtype, q.options, q.isRequired, q.orderIndex)
  {
    if HasChoices(q.qtype) {
      NotBlankIffHasText();
      FilterKeepsAll(q.options.value, NotBlank);
    }
  }

  // ------------------------------------------------------- draft choices

  /** `options.filter((_, i) => i !== index)`: drops the entry at `index`, if
      there is one, and keeps the others in order. */
  function WithoutIndex(options: seq<string>, index: int): (r: seq<string>)
    ensures 0 <= index < |options| ==> |r| == |options| - 1
    ensures !(0 <= index < |options|) ==> r == options
    ensures forall j :: 0 <= j < |r| ==> r[j] == options[if 0 <= index <= j then j + 1 else j]
  {
    if 0 <= index < |options| then options[..index] + options[index + 1..] else options
  }

  /** Adding a choice and removing it again gives the list back. */
  lemma AddThenRemove(options: seq<string>)
    ensures WithoutIndex(options + [""], |options|) == options
  {
    assert (options + [""])[..|options|] == options;
  }

  // ------------------------------------------------------------- moving

  datatype Direction = Up | Down

  /** One write of `moveQuestion`: set the order of the row with this id. */
  datatype OrderUpdate = OrderUpdate(id: string, orderIndex: int)

  datatype MoveResult =
    | NotFound   // no question has the id: nothing is written
    | AtEdge     // the first moving up or the last moving down: nothing is written
    | Moved      // both writes succeeded
    | Failed     // a write failed; later writes were not issued

  /** The positions of the question and of its neighbour in the move
      direction, when both exist. */
  function MoveTarget(questions: seq<Question>, id: string, dir: Direction): (r: Option<(nat, nat)>)
    ensures r.Some? ==> r.value.0 < |questions| && r.value.1 < |questions|
    ensures r.Some? ==> questions[r.value.0].id == id
    ensures r.Some? ==> r.value.1 == if dir == Up then r.value.0 - 1 else r.value.0 + 1
  {
    var current := FindIndexById(questions, id);
    if current == -1 then None
    else
      var next := if dir == Up then current - 1 else current + 1;
      if next < 0 || next >= |questions| then None else Some((current as nat, next as nat))
  }

  /** The two writes: each question takes the other's `order_index`. */
  function SwapUpdates(questions: seq<Question>, current: nat, next: nat): seq<OrderUpdate>
    requires current < |questions| && next < |questions|
  {
    [OrderUpdate(questions[current].id, questions[next].orderIndex),
     OrderUpdate(questions[next].id, questions[current].orderIndex)]
  }

  /** The `order_index` column, by question id, after one write; a write to
      an id with no row changes nothing. */
  function ApplyUpdate(stored: map<string, int>, u: OrderUpdate): map<string, int>
  {
    if u.id in stored then stored[u.id := u.orderIndex] else stored
  }

  /** The writes issued one after another, stopping at the first one whose
      outcome is an error. */
  function SequentialWrites(stored: map<string, int>, updates: seq<OrderUpdate>, outcomes: seq<Outcome>): map<string, int>
    requires |outcomes| == |updates|
  {
    if updates == [] || outcomes[0] == Err then stored
    else SequentialWrites(ApplyUpdate(stored, updates[0]), updates[1..], outcomes[1..])
  }

  /** The loaded questions agree with the stored `order_index` column. */
  predicate Consistent(questions: seq<Question>, stored: map<string, int>)
  {
    forall i :: 0 <= i < |questions| ==> questions[i].id in stored && stored[questions[i].id] == questions[i].orderIndex
  }

  predicate UniqueIds(questions: seq<Question>)
  {
    forall i, j :: 0 <= i < j < |questions| ==> questions[i].id != questions[j].id
  }

  /** A move whose writes both succeed exchanges the two questions' orders
      and changes no other row. */
  lemma SuccessfulMoveSwaps(questions: seq<Question>, stored: map<string, int>, id: string, dir: Direction)
    requires Consistent(questions, stored) && UniqueIds(questions)
    requires MoveTarget(questions, id, dir).Some?
    ensures var (c, n) := MoveTarget(questions, id, dir).value;
      var a, b := questions[c], questions[n];
      var after := SequentialWrites(stored, SwapUpdates(questions, c, n), [Ok, Ok]);
      after.Keys == stored.Keys
      && after[a.id] == b.orderIndex && after[b.id] == a.orderIndex
      && forall k :: k in stored && k != a.id && k != b.id ==> after[k] == stored[k]
  {
    var (c, n) := MoveTarget(questions, id, dir).value;
    var a, b := questions[c], questions[n];
    var updates := SwapUpdates(questions, c, n);
    assert a.id != b.id;
    var first := ApplyUpdate(stored, updates[0]);
    assert first == stored[a.id := b.orderIndex];
    assert SequentialWrites(stored, updates, [Ok, Ok])
        == SequentialWrites(first, updates[1..], [Ok]);
    assert SequentialWrites(first, updates[1..], [Ok])
        == SequentialWrites(ApplyUpdate(first, updates[1]), [], []);
  }

  /** If the first write fails nothing changes; if only the second fails both
      questions are left holding the same `order_index`. */
  lemma FailedMoveEffect(questions: seq<Question>, stored: map<string, int>, id: string, dir: Direction, second: Outcome)
    requires Consistent(questions, stored) && UniqueIds(questions)
    requires MoveTarget(questions, id, dir).Some?
    ensures var (c, n) := MoveTarget(questions, id, dir).value;
      SequentialWrites(stored, SwapUpdates(questions, c, n), [Err, second]) == stored
    ensures var (c, n) := MoveTarget(questions, id, dir).value;
      var after := SequentialWrites(stored, SwapUpdates(questions, c, n), [Ok, Err]);
      questions[c].id in after && questions[n].id in after
      && after[questions[c].id] == after[questions[n].id] == questions[n].orderIndex
  {
    var (c, n) := MoveTarget(questions, id, dir).value;
    var updates := SwapUpdates(questions, c, n);
    var first := ApplyUpdate(stored, updates[0]);
    assert SequentialWrites(stored, updates, [Ok, Err]) == SequentialWrites(first, updates[1..], [Err]);
  }

  /** The `order_index` of each loaded question, read from the column. */
  function OrderValues(questions: seq<Question>, stored: map<string, int>): (r: seq<int>)
    requires forall i :: 0 <= i < |questions| ==> questions[i].id in stored
    ensures |r| == |questions|
    ensures forall i :: 0 <= i < |questions| ==> r[i] == stored[questions[i].id]
  {
    seq(|questions|, i requires 0 <= i < |questions| => stored[questions[i].id])
  }

  /** A successful move permutes the orders of the loaded questions: the
      multiset of `order_index` values is unchanged. */
  lemma SuccessfulMoveKeepsOrderValues(questions: seq<Question>, stored: map<string, int>, id: string, dir: Direction)
    requires Consistent(questions, stored) && UniqueIds(questions)
    requires MoveTarget(questions, id, dir).Some?
    ensures var (c, n) := MoveTarget(questions, id, dir).value;
      var after := SequentialWrites(stored, SwapUpdates(questions, c, n), [Ok, Ok]);
      after.Keys == stored.Keys
      && multiset(OrderValues(questions, after)) == multiset(OrderValues(questions, stored))
  {
    SuccessfulMoveSwaps(questions, stored, id, dir);
    var (c, n) := MoveTarget(questions, id, dir).value;
    var after := SequentialWrites(stored, SwapUpdates(questions, c, n), [Ok, Ok]);
    var before := OrderValues(questions, stored);
    var now := OrderValues(questions, after);
    assert now == before[c := before[n]][n := before[c]];
    SwapKeepsMultiset(before, c, n);
  }

  /** Exchanging two entries of a sequence keeps its multiset. */
  lemma SwapKeepsMultiset(s: seq<int>, i: nat, j: nat)
    requires i < |s| && j < |s| && i != j
    ensures multiset(s[i := s[j]][j := s[i]]) == multiset(s)
  {
    var t := s[i := s[j]];
    assert multiset(t) == multiset(s) - multiset{s[i]} + multiset{s[j]};
    assert t[j] == s[j];
    assert multiset(t[j := s[i]]) == multiset(t) - multiset{s[j]} + multiset{s[i]};
  }

  // ------------------------------------------------------------- editor

  /** The empty draft of a new question, placed after the loaded ones. */
  function BlankForm(questionCount: nat): QuestionForm
  {
    QuestionForm("", Text, [""], false, questionCount)
  }

  /** The editor's state. */
  class QuestionEditor {
    var questions: seq<Question>
    var selectedTender: string
    var form: QuestionForm
    var editing: Option<Question>
    var dialogOpen: bool

    constructor ()
      ensures questions == [] && selectedTender == "" && form == BlankForm(0)
      ensures editing == None && !dialogOpen
    {
      questions := [];
      selectedTender := "";
      form := BlankForm(0);
      editing := None;
      dialogOpen := false;
    }

    /** The questions of the selected tender arrive, sorted by the backend. */
    method LoadQuestions(rows: seq<Question>)
      modifies this
      ensures questions == rows
      ensures selectedTender == old(selectedTender) && form == old(form)
      ensures editing == old(editing) && dialogOpen == old(dialogOpen)
    {
      questions := rows;
    }

    /** A tender is picked in the selector, or the first tender is picked
        when the list of tenders with a form arrives. */
    method SelectTender(id: string)
      modifies this
      ensures selectedTender == id
      ensures questions == old(questions) && form == old(form)
      ensures editing == old(editing) && dialogOpen == old(dialogOpen)
    {
      selectedTender := id;
    }

    /** `resetForm`: an empty draft whose `order_index` is the number of
        loaded questions, so that a new question goes last. */
    method ResetForm()
      modifies this
      ensures form.orderIndex == |questions|
      ensures form == BlankForm(|questions|) && editing == None
      ensures questions == old(questions) && selectedTender == old(selectedTender)
      ensures dialogOpen == old(dialogOpen)
    {
      form := BlankForm(|questions|);
      editing := None;
    }

    /** `openEditDialog`. */
    method OpenEdit(q: Question)
      modifies this
      ensures editing == Some(q) && form == FormOf(q) && dialogOpen
      ensures questions == old(questions) && selectedTender == old(selectedTender)
    {
      editing := Some(q);
      form := FormOf(q);
      dialogOpen := true;
    }

    /** `addOption`: exactly one empty choice at the end. */
    method AddOption()
      modifies this
      ensures form == old(form).(options := old(form).options + [""])
      ensures questions == old(questions) && selectedTender == old(selectedTender)
      ensures editing == old(editing) && dialogOpen == old(dialogOpen)
    {
      form := form.(options := form.options + [""]);
    }

    /** `removeOption`: exactly the entry at `index` goes. */
    method RemoveOption(index: int)
      modifies this
      ensures form == old(form).(options := WithoutIndex(old(form).options, index))
      ensures questions == old(questions) && selectedTender == old(selectedTender)
      ensures editing == old(editing) && dialogOpen == old(dialogOpen)
    {
      form := form.(options := WithoutIndex(form.options, index));
    }

    /** `updateOption`: the choices are copied, one entry of the copy is
        overwritten, and the copy becomes the draft's list. The inputs only
        ever pass an existing index. */
    method UpdateOption(index: nat, value: string)
      requires index < |form.options|
      modifies this
      ensures |form.options| == |old(form).options|
      ensures form.options[index] == value
      ensures forall j :: 0 <= j < |form.options| && j != index ==> form.options[j] == old(form).options[j]
      ensures form == old(form).(options := form.options)
      ensures questions == old(questions) && selectedTender == old(selectedTender)
      ensures editing == old(editing) && dialogOpen == old(dialogOpen)
    {
      var options := form.options;
      var copy := new string[|options|](j requires 0 <= j < |options| => options[j]);
      copy[index] := value;
      form := form.(options := copy[..]);
    }

    /** `handleSubmit`: nothing is written without a selected tender; an edit
        updates the edited row, anything else inserts. On success the dialog
        closes and the draft is reset; on failure everything stays. */
    method Submit(outcome: Outcome) returns (write: Option<Write<Payload>>)
      modifies this
      ensures old(selectedTender) == "" ==> write == None
      ensures old(selectedTender) != "" ==> write == Some(
        var p := ToPayload(old(selectedTender), old(form));
        if old(editing).Some? then Update(old(editing).value.id, p) else Insert(p))
      ensures write.Some? && outcome == Ok ==>
        !dialogOpen && form == BlankForm(|questions|) && editing == None
      ensures write.None? || outcome == Err ==>
        dialogOpen == old(dialogOpen) && form == old(form) && editing == old(editing)
      ensures questions == old(questions) && selectedTender == old(selectedTender)
    {
      if selectedTender == "" {
        return None;
      }
      var p := ToPayload(selectedTender, form);
      write := Some(if editing.Some? then Update(editing.value.id, p) else Insert(p));
      if outcome == Ok {
        dialogOpen := false;
        ResetForm();
      }
    }

    /** `moveQuestion`: finds the question, checks that the neighbour exists,
        then issues the two writes in order and stops at the first failure.
        `stored` is the `order_index` column before the move, `outcomes` the
        answers the two writes would get; `after` is the column afterwards. */
    method MoveQuestion(id: string, dir: Direction, stored: map<string, int>, outcomes: seq<Outcome>)
      returns (after: map<string, int>, result: MoveResult)
      requires |outcomes| == 2
      ensures FindIndexById(questions, id) == -1 ==> result == NotFound && after == stored
      ensures FindIndexById(questions, id) != -1 && MoveTarget(questions, id, dir).None? ==>
        result == AtEdge && after == stored
      ensures MoveTarget(questions, id, dir).Some? ==>
        var (c, n) := MoveTarget(questions, id, dir).value;
        after == SequentialWrites(stored, SwapUpdates(questions, c, n), outcomes)
        && (result == Moved <==> outcomes == [Ok, Ok])
        && (result == Failed <==> Err in outcomes)
    {
      var current := FindIndexById(questions, id);
      if current == -1 {
        return stored, NotFound;
      }
      var next := if dir == Up then current - 1 else current + 1;
      if next < 0 || next >= |questions| {
        return stored, AtEdge;
      }
      var updates := SwapUpdates(questions, current, next);
      after := stored;
      var k := 0;
      while k < |updates|
        invariant 0 <= k <= |updates|
        invariant SequentialWrites(stored, updates, outcomes) == SequentialWrites(after, updates[k..], outcomes[k..])
        invariant forall j :: 0 <= j < k ==> outcomes[j] == Ok
      {
        if outcomes[k] == Err {
          return after, Failed;
        }
        after := ApplyUpdate(after, updates[k]);
        k := k + 1;
      }
      assert outcomes == [outcomes[0], outcomes[1]];
      result := Moved;
    }
  }
}
