/** The admin editor of the leadership list: a dialog form saved exactly as
    typed, with a numeric display-order field. */
module AdminLeadership {
  import opened Base
  import opened JsText

  /** A row of the `leadership` table; photo and biography are optional. */
  datatype Member = Member(
    id: string, name: string, position: string,
    photoUrl: Option<string>, bio: Option<string>, orderIndex: int)

  /** The dialog's draft, which is also the record written: the save sends
      `formData` itself, so an empty photo or biography is stored as `''`. */
  datatype MemberForm = MemberForm(
    name: string, position: string, photoUrl: string, bio: string, orderIndex: int)

  /** The initial draft. */
  const InitialForm: MemberForm := MemberForm("", "", "", "", 0)

  /** `openEditDialog`: the draft of a stored member, with an absent photo or
      biography shown as `''`. */
  function FormOf(m: Member): (f: MemberForm)
    ensures f.name == m.name && f.position == m.position && f.orderIndex == m.orderIndex
    ensures f.photoUrl == "" <==> m.photoUrl == None || m.photoUrl == Some("")
    ensures m.photoUrl.Some? ==> f.photoUrl == m.photoUrl.value
    ensures f.bio == "" <==> m.bio == None || m.bio == Some("")
    ensures m.bio.Some? ==> f.bio == m.bio.value
  {
    MemberForm(m.name, m.position, EmptyIfNull(m.photoUrl), EmptyIfNull(m.bio), m.orderIndex)
  }

  /** The row that a saved draft becomes: every field as typed. */
  function RowOf(id: string, f: MemberForm): (m: Member)
    ensures m.photoUrl.Some? && m.bio.Some?
  {
    Member(id, f.name, f.position, Some(f.photoUrl), Some(f.bio), f.orderIndex)
  }

  /** Saving a draft and opening the saved row gives the same draft back. */
  lemma SaveThenEditKeepsForm(id: string, f: MemberForm)
    ensures FormOf(RowOf(id, f)) == f
  {
  }

  /** Opening a member and saving without edits keeps every field, except
      that an absent photo or biography comes back as `''`, never as null. */
  lemma EditThenSaveFillsNulls(m: Member)
    ensures var saved := RowOf(m.id, FormOf(m));
      saved.name == m.name && saved.position == m.position && saved.orderIndex == m.orderIndex
    ensures RowOf(m.id, FormOf(m)).photoUrl == (if m.photoUrl == None then Some("") else m.photoUrl)
    ensures RowOf(m.id, FormOf(m)).bio == (if m.bio == None then Some("") else m.bio)
  {
  }

  /** `parseInt(value) || 0`: the number the order field stores for what is
      typed; anything that does not parse, and 0 itself, give 0. */
  function OrderIndexInput(s: string): (n: int)
    ensures ParseInt(s) == None ==> n == 0
    ensures ParseInt(s).Some? ==> n == ParseInt(s).value
  {
    match ParseInt(s)
    case None => 0
    case Some(v) => if v == 0 then 0 else v
  }

  /** A number typed as the field shows it is stored as that number. */
  lemma OrderIndexRoundTrip(n: int)
    ensures OrderIndexInput(IntToString(n)) == n
  {
    ParseIntRoundTrip(n);
  }

  /** A cleared field stores 0. */
  lemma ClearedOrderIndexIsZero()
    ensures OrderIndexInput("") == 0
  {
  }

  /** The editor's state. */
  class LeadershipEditor {
    var members: seq<Member>
    var form: MemberForm
    var editing: Option<Member>
    var dialogOpen: bool

    constructor ()
      ensures members == [] && form == InitialForm && editing == None && !dialogOpen
    {
      members := [];
      form := InitialForm;
      editing := None;
      dialogOpen := false;
    }

    /** The list arrives, sorted by `order_index` on the backend. */
    method LoadMembers(rows: seq<Member>)
      modifies this
      ensures members == rows
      ensures form == old(form) && editing == old(editing) && dialogOpen == old(dialogOpen)
    {
      members := rows;
    }

    /** `resetForm`: an empty draft whose order is the number of members, so
        that a new member goes last. */
    method ResetForm()
      modifies this
      ensures form.name == "" && form.position == "" && form.photoUrl == "" && form.bio == ""
      ensures form.orderIndex == |members|
      ensures editing == None
      ensures members == old(members) && dialogOpen == old(dialogOpen)
    {
      form := MemberForm("", "", "", "", |members|);
      editing := None;
    }

    /** `openEditDialog`. */
    method OpenEdit(m: Member)
      modifies this
      ensures editing == Some(m) && form == FormOf(m) && dialogOpen
      ensures members == old(members)
    {
      editing := Some(m);
      form := FormOf(m);
      dialogOpen := true;
    }

    /** Typing in the order field. */
    method SetOrderIndex(typed: string)
      modifies this
      ensures form == old(form).(orderIndex := OrderIndexInput(typed))
      ensures members == old(members) && editing == old(editing) && dialogOpen == old(dialogOpen)
    {
      var n := OrderIndexInput(typed);
      form := form.(orderIndex := n);
    }

    /** `handleSubmit`: the draft itself is written, as an update of the edited
        row or as an insert. On success the dialog closes and the draft is
        reset; on failure everything stays. */
    method Save(outcome: Outcome) returns (write: Write<MemberForm>)
      modifies this
      ensures write == (if old(editing).Some? then Update(old(editing).value.id, old(form)) else Insert(old(form)))
      ensures outcome == Ok ==>
        !dialogOpen && editing == None && form == MemberForm("", "", "", "", |members|)
      ensures outcome == Err ==> dialogOpen == old(dialogOpen) && form == old(form) && editing == old(editing)
      ensures members == old(members)
    {
      write := if editing.Some? then Update(editing.value.id, form) else Insert(form);
      if outcome == Ok {
        dialogOpen := false;
        ResetForm();
      }
    }
  }
}
