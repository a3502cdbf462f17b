/** The admin editor of the legal-school topics: a dialog form whose content
    and link are saved as null when left empty. */
module AdminLegalSchool {
  import opened Base
  import opened LegalSchoolPage

  /** The dialog's draft. */
  datatype TopicForm = TopicForm(title: string, content: string, link: string)

  /** `dataToSave`: the record written to `legal_school`. */
  datatype TopicPayload = TopicPayload(title: string, content: Option<string>, link: Option<string>)

  /** The draft after `resetForm`, and the initial one. */
  const EmptyForm: TopicForm := TopicForm("", "", "")

  /** `dataToSave`: the draft with an empty content or link written as null. */
  function ToSaved(form: TopicForm): (p: TopicPayload)
    ensures p.title == form.title
    ensures p.content == None <==> form.content == ""
    ensures p.content.Some? ==> p.content.value == form.content
    ensures p.link == None <==> form.link == ""
    ensures p.link.Some? ==> p.link.value == form.link
  {
    TopicPayload(form.title, NullIfEmpty(form.content), NullIfEmpty(form.link))
  }

  /** `openEditDialog`: the draft of a stored topic, with absent content or
      link shown as `''`. */
  function FormOf(t: Topic): (f: TopicForm)
    ensures f.title == t.title
    ensures f.content == "" <==> t.content == None || t.content == Some("")
    ensures t.content.Some? ==> f.content == t.content.value
    ensures f.link == "" <==> t.link == None || t.link == Some("")
    ensures t.link.Some? ==> f.link == t.link.value
  {
    TopicForm(t.title, EmptyIfNull(t.content), EmptyIfNull(t.link))
  }

  /** The row that a saved payload becomes. */
  function RowOf(id: string, p: TopicPayload): Topic
  {
    Topic(id, p.title, p.content, p.link)
  }

  /** Opening a topic and saving without edits writes it back: null stays
      null and a non-empty value is unchanged (a stored empty string becomes
      null). */
  lemma EditThenSaveKeepsTopic(t: Topic)
    ensures ToSaved(FormOf(t)).title == t.title
    ensures ToSaved(FormOf(t)).content == (if t.content == Some("") then None else t.content)
    ensures ToSaved(FormOf(t)).link == (if t.link == Some("") then None else t.link)
  {
    StoredFieldRoundTrip(t.content);
    StoredFieldRoundTrip(t.link);
  }

  /** Saving a draft and opening the saved row gives the same draft back. */
  lemma SaveThenEditKeepsForm(id: string, form: TopicForm)
    ensures FormOf(RowOf(id, ToSaved(form))) == form
  {
    FormFieldRoundTrip(form.content);
    FormFieldRoundTrip(form.link);
  }

  /** The editor's state. */
  class TopicsEditor {
    var form: TopicForm
    var editing: Option<Topic>
    var dialogOpen: bool

    constructor ()
      ensures form == EmptyForm && editing == None && !dialogOpen
    {
      form := EmptyForm;
      editing := None;
      dialogOpen := false;
    }

    /** `resetForm`: all three fields empty and nothing being edited. */
    method ResetForm()
      modifies this
      ensures form.title == "" && form.content == "" && form.link == ""
      ensures editing == None && dialogOpen == old(dialogOpen)
    {
      form := EmptyForm;
      editing := None;
    }

    /** `openEditDialog`. */
    method OpenEdit(t: Topic)
      modifies this
      ensures editing == Some(t) && form == FormOf(t) && dialogOpen
    {
      editing := Some(t);
      form := FormOf(t);
      dialogOpen := true;
    }

    /** `handleSubmit`: an edit updates the edited row, anything else inserts.
        On success the dialog closes and the draft is reset; on failure
        everything stays. */
    method Save(outcome: Outcome) returns (write: Write<TopicPayload>)
      modifies this
      ensures write == (if old(editing).Some? then Update(old(editing).value.id, ToSaved(old(form)))
                        else Insert(ToSaved(old(form))))
      ensures outcome == Ok ==> !dialogOpen && form == EmptyForm && editing == None
      ensures outcome == Err ==> dialogOpen == old(dialogOpen) && form == old(form) && editing == old(editing)
    {
      var p := ToSaved(form);
      write := if editing.Some? then Update(editing.value.id, p) else Insert(p);
      if outcome == Ok {
        dialogOpen := false;
        ResetForm();
      }
    }
  }
}
