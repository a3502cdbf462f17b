/** The admin feedback inbox: an administrator selects a message, edits a
    draft status and a draft reply, and saves them. */
module AdminFeedback {
  import opened Base

  /** The fields of a `feedback` row that the inbox reads and writes. */
  datatype Feedback = Feedback(id: string, messageType: string, status: string, adminResponse: Option<string>)

  /** The update sent for the selected message. */
  datatype FeedbackUpdate = FeedbackUpdate(id: string, status: string, adminResponse: Option<string>)

  /** `statusUpdate || stored.status` and `adminResponse || stored.admin_response`:
      an empty draft falls back to the stored value. */
  function MergeUpdate(stored: Feedback, statusDraft: string, responseDraft: string): (u: FeedbackUpdate)
    ensures u.id == stored.id
    ensures statusDraft != "" ==> u.status == statusDraft
    ensures statusDraft == "" ==> u.status == stored.status
    ensures u.status != stored.status ==> u.status == statusDraft
    ensures responseDraft != "" ==> u.adminResponse == Some(responseDraft)
    ensures responseDraft == "" ==> u.adminResponse == stored.adminResponse
    ensures u.adminResponse != stored.adminResponse ==> u.adminResponse == Some(responseDraft)
    ensures stored.adminResponse.Some? ==> u.adminResponse.Some?
  {
    FeedbackUpdate(
      stored.id,
      if statusDraft != "" then statusDraft else stored.status,
      if responseDraft != "" then Some(responseDraft) else stored.adminResponse)
  }

  /** Clearing the reply draft to `''` cannot erase a stored reply: the update
      writes the stored reply back. */
  lemma ClearedDraftKeepsResponse(stored: Feedback, statusDraft: string)
    ensures MergeUpdate(stored, statusDraft, "").adminResponse == stored.adminResponse
  {
  }

  /** The drafts that selecting a message preloads: its status, and its reply
      or `''`. */
  function Preload(f: Feedback): (drafts: (string, string))
    ensures drafts.0 == f.status
    ensures drafts.1 == "" <==> f.adminResponse == None || f.adminResponse == Some("")
  {
    (f.status, EmptyIfNull(f.adminResponse))
  }

  /** Selecting a message and saving without touching the drafts writes back
      exactly what is stored. */
  lemma SelectThenSaveWritesBack(f: Feedback)
    ensures MergeUpdate(f, Preload(f).0, Preload(f).1) == FeedbackUpdate(f.id, f.status, f.adminResponse)
  {
    StoredFieldRoundTrip(f.adminResponse);
  }

  /** `getStatusLabel`. */
  function StatusLabel(status: string): string
  {
    match status
    case "new" => "Новий"
    case "in_progress" => "В роботі"
    case "resolved" => "Вирішено"
    case "closed" => "Закрито"
    case _ => status
  }

  /** `getTypeLabel`. */
  function TypeLabel(messageType: string): string
  {
    match messageType
    case "question" => "Питання"
    case "complaint" => "Скарга"
    case "suggestion" => "Пропозиція"
    case "message" => "Повідомлення"
    case _ => messageType
  }

  /** A status is shown as it is exactly when it is none of the four known
      ones; the four known ones get four different labels. */
  lemma StatusLabels(status: string)
    ensures StatusLabel(status) == status <==> status !in {"new", "in_progress", "resolved", "closed"}
    ensures |{StatusLabel("new"), StatusLabel("in_progress"), StatusLabel("resolved"), StatusLabel("closed")}| == 4
  {
  }

  /** A message type is shown as it is exactly when it is none of the four
      known ones; the four known ones get four different labels. */
  lemma TypeLabels(messageType: string)
    ensures TypeLabel(messageType) == messageType <==> messageType !in {"question", "complaint", "suggestion", "message"}
    ensures |{TypeLabel("question"), TypeLabel("complaint"), TypeLabel("suggestion"), TypeLabel("message")}| == 4
  {
  }

  /** The inbox state. */
  class Inbox {
    var selected: Option<Feedback>
    var adminResponse: string
    var statusUpdate: string

    constructor ()
      ensures selected == None && adminResponse == "" && statusUpdate == ""
    {
      selected := None;
      adminResponse := "";
      statusUpdate := "";
    }

    /** Clicking a message selects it and preloads the drafts. */
    method Select(f: Feedback)
      modifies this
      ensures selected == Some(f)
      ensures (statusUpdate, adminResponse) == Preload(f)
    {
      selected := Some(f);
      adminResponse := EmptyIfNull(f.adminResponse);
      statusUpdate := f.status;
    }

    /** Typing in the drafts. */
    method EditDrafts(status: string, response: string)
      modifies this
      ensures statusUpdate == status && adminResponse == response
      ensures selected == old(selected)
    {
      statusUpdate := status;
      adminResponse := response;
    }

    /** `handleUpdateFeedback`: nothing without a selection; otherwise the
        merged update is sent, and on success the selection and both drafts
        are cleared, while on failure everything stays. */
    method Update(outcome: Outcome) returns (sent: Option<FeedbackUpdate>)
      modifies this
      ensures old(selected) == None ==> sent == None
      ensures old(selected).Some? ==> sent == Some(MergeUpdate(old(selected).value, old(statusUpdate), old(adminResponse)))
      ensures sent.Some? && outcome == Ok ==> selected == None && adminResponse == "" && statusUpdate == ""
      ensures sent.None? || outcome == Err ==>
        selected == old(selected) && adminResponse == old(adminResponse) && statusUpdate == old(statusUpdate)
    {
      if selected == None {
        return None;
      }
      sent := Some(MergeUpdate(selected.value, statusUpdate, adminResponse));
      if outcome == Ok {
        selected := None;
        adminResponse := "";
        statusUpdate := "";
      }
    }
  }
}
