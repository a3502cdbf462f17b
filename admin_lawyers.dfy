/** The admin editor of the lawyers registry: a dialog form whose optional
    fields are saved as null when left empty, and a switch that flips a
    lawyer's active status. */
module AdminLawyers {
  import opened Base
  import opened LawyersPage

  /** The dialog's draft: every text field is a plain string. */
  datatype LawyerForm = LawyerForm(
    name: string, licenseNumber: string,
    specialization: string, contactInfo: string, isActive: bool)

  /** `dataToSave`: the record written to `lawyers_registry`. */
  datatype LawyerPayload = LawyerPayload(
    name: string, licenseNumber: string,
    specialization: Option<string>, contactInfo: Option<string>, isActive: bool)

  /** The draft after `resetForm`, and the initial one. */
  const EmptyForm: LawyerForm := LawyerForm("", "", "", "", true)

  /** `dataToSave`: the draft with an empty specialization or contact field
      written as null. */
  function ToSaved(form: LawyerForm): (p: LawyerPayload)
    ensures p.name == form.name && p.licenseNumber == form.licenseNumber && p.isActive == form.isActive
    ensures p.specialization == None <==> form.specialization == ""
    ensures p.specialization.Some? ==> p.specialization.value == form.specialization
    ensures p.contactInfo == None <==> form.contactInfo == ""
    ensures p.contactInfo.Some? ==> p.contactInfo.value == form.contactInfo
  {
    LawyerPayload(form.name, form.licenseNumber,
      NullIfEmpty(form.specialization), NullIfEmpty(form.contactInfo), form.isActive)
  }

  /** `openEditDialog`: the draft of a stored lawyer, with absent optional
      fields shown as `''`. */
  function FormOf(l: Lawyer): (f: LawyerForm)
    ensures f.name == l.name && f.licenseNumber == l.licenseNumber && f.isActive == l.isActive
    ensures f.specialization == "" <==> l.specialization == None || l.specialization == Some("")
    ensures l.specialization.Some? ==> f.specialization == l.specialization.value
    ensures f.contactInfo == "" <==> l.contactInfo == None || l.contactInfo == Some("")
    ensures l.contactInfo.Some? ==> f.contactInfo == l.contactInfo.value
  {
    LawyerForm(l.name, l.licenseNumber, EmptyIfNull(l.specialization), EmptyIfNull(l.contactInfo), l.isActive)
  }

  /** The row that a saved payload becomes. */
  function RowOf(id: string, p: LawyerPayload): Lawyer
  {
    Lawyer(id, p.name, p.licenseNumber, p.specialization, p.contactInfo, p.isActive)
  }

  /** Opening a lawyer and saving without edits writes the lawyer back, except
      that a stored empty specialization or contact becomes null. */
  lemma EditThenSaveKeepsLawyer(l: Lawyer)
    ensures ToSaved(FormOf(l)).name == l.name && ToSaved(FormOf(l)).licenseNumber == l.licenseNumber
    ensures ToSaved(FormOf(l)).isActive == l.isActive
    ensures ToSaved(FormOf(l)).specialization == (if l.specialization == Some("") then None else l.specialization)
    ensures ToSaved(FormOf(l)).contactInfo == (if l.contactInfo == Some("") then None else l.contactInfo)
  {
    StoredFieldRoundTrip(l.specialization);
    StoredFieldRoundTrip(l.contactInfo);
  }

  /** Saving a draft and opening the saved row gives the same draft back. */
  lemma SaveThenEditKeepsForm(id: string, form: LawyerForm)
    ensures FormOf(RowOf(id, ToSaved(form))) == form
  {
    FormFieldRoundTrip(form.specialization);
    FormFieldRoundTrip(form.contactInfo);
  }

  /** The update `toggleActive` sends for one lawyer. */
  datatype StatusUpdate = StatusUpdate(id: string, isActive: bool)

  /** `toggleActive`: the stored status is negated. */
  function ToggleActive(id: string, current: bool): (u: StatusUpdate)
    ensures u.id == id
    ensures u.isActive != current
  {
    StatusUpdate(id, !current)
  }

  /** Toggling twice restores the status. */
  lemma ToggleTwice(id: string, current: bool)
    ensures ToggleActive(id, ToggleActive(id, current).isActive).isActive == current
  {
  }

  /** The editor's state. */
  class LawyersEditor {
    var form: LawyerForm
    var editing: Option<Lawyer>
    var dialogOpen: bool

    constructor ()
      ensures form == EmptyForm && editing == None && !dialogOpen
    {
      form := EmptyForm;
      editing := None;
      dialogOpen := false;
    }

    /** `resetForm`: every text field empty, the lawyer active, nothing being
        edited. */
    method ResetForm()
      modifies this
      ensures form.name == "" && form.licenseNumber == "" && form.specialization == "" && form.contactInfo == ""
      ensures form.isActive
      ensures editing == None && dialogOpen == old(dialogOpen)
    {
      form := EmptyForm;
      editing := None;
    }

    /** `openEditDialog`. */
    method OpenEdit(l: Lawyer)
      modifies this
      ensures editing == Some(l) && form == FormOf(l) && dialogOpen
    {
      editing := Some(l);
      form := FormOf(l);
      dialogOpen := true;
    }

    /** `handleSubmit`: an edit updates the edited row, anything else inserts.
        On success the dialog closes and the draft is reset; on failure
        everything stays. */
    method Save(outcome: Outcome) returns (write: Write<LawyerPayload>)
      modifies this
      ensures write == (if old(editing).Some? then Update(old(editing).value.id, ToSaved(old(form)))
                        else Insert(ToSaved(old(form))))
      ensures outcome == Ok ==> !dialogOpen && form == EmptyForm && editing == None
      ensures outcome == Err ==> dialogOpen == old(dialogOpen) && form == old(form) && editing == old(editing)
    {
      var p := ToSaved(form);
      write := if editing.Some? then Update(editing.value.id, p) else Insert(p);
      if outcome == Ok {
        dialogOpen := false;
        ResetForm();
      }
    }
  }
}
