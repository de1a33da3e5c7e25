/**
 * The meetings page: the current trip's meetings under the status filter,
 * the meeting form (new or editing, with its four note fields), the
 * completion toggle that opens the notes for writing, and the notes view.
 *
 * The update time of a submitted form is a parameter.
 */
module MeetingsPage {
  import opened Values
  import opened Views
  import Store

  /** `filteredMeetings`: the trip's meetings, all of them or those of one status. */
  function FilteredMeetings(meetings: seq<Record>, current: Option<Record>, filter: string): (r: seq<Record>)
    ensures filter == "all" ==> r == OfCurrentTrip(meetings, current)
    ensures filter != "all" ==> forall x :: x in r <==> x in OfCurrentTrip(meetings, current) && Get(x, "status") == Str(filter)
  {
    StatusFilter(OfCurrentTrip(meetings, current), filter)
  }

  // ---------------------------------------------------------------------
  // The meeting form

  /** The notes of a meeting: four empty text fields. */
  const EmptyNotes: Value :=
    Obj(map["pledges" := Str(""), "outcomes" := Str(""), "nextActions" := Str(""), "generalNotes" := Str("")])

  /** The form of a new meeting. */
  const NewMeeting: Record := map[
    "title" := Str(""), "description" := Str(""), "date" := Str(""), "time" := Str(""),
    "location" := Str(""), "type" := Str("Major Donor Meeting"), "status" := Str("scheduled"),
    "agenda" := Str(""), "notes" := EmptyNotes]

  /**
   * What the form holds once the meeting it is given changes: the meeting
   * being edited, with the empty notes when it has none; with no meeting,
   * whatever the form held before (the new-meeting form when the page
   * opens, the last edited meeting after an edit).
   */
  function ModalForm(held: Record, meeting: Option<Record>): (r: Record)
    ensures meeting.None? ==> r == held
    ensures meeting.Some? ==> Truthy(Get(r, "notes")) && r.Keys == meeting.value.Keys + {"notes"}
    ensures meeting.Some? ==> forall k | k in meeting.value && k != "notes" :: r[k] == meeting.value[k]
    ensures meeting.Some? && Truthy(Get(meeting.value, "notes")) ==> r == meeting.value
  {
    if meeting.None? then held
    else
      var m := meeting.value;
      if Truthy(Get(m, "notes")) then
        assert m["notes" := Get(m, "notes")] == m;
        m["notes" := Get(m, "notes")]
      else m["notes" := EmptyNotes]
  }

  /** The fields `{ ...notes }` copies: an object's own fields, none for anything else. */
  function NoteFields(v: Value): map<string, Value>
  {
    if v.Obj? then v.fields else map[]
  }

  /** `handleNotesChange(field, value)`: one note field takes the value; the other notes and fields stay. */
  function NotesChange(form: Record, field: string, value: string): (r: Record)
    ensures r.Keys == form.Keys + {"notes"}
    ensures Get(r, "notes").Obj? && Get(r, "notes").fields == NoteFields(Get(form, "notes"))[field := Str(value)]
    ensures forall k | k in form && k != "notes" :: r[k] == form[k]
  {
    form["notes" := Obj(NoteFields(Get(form, "notes"))[field := Str(value)])]
  }

  /** `MeetingModal.handleSubmit`: the form with the trip's id and the update time over it. */
  function Submit(form: Record, current: Option<Record>, stamp: Value): (r: Record)
    ensures Get(r, "tripId") == Store.SelectedId(current) && Get(r, "updatedAt") == stamp
    ensures r.Keys == form.Keys + {"tripId", "updatedAt"}
    ensures forall k | k in form && k != "tripId" && k != "updatedAt" :: r[k] == form[k]
  {
    Submitted(form, current, map[], stamp)
  }

  /** `handleSave`: update the meeting being edited with the form's fields winning, or add a new meeting. */
  function Save(editing: Option<Record>, data: Record): (r: Store.Action)
    ensures editing.Some? ==> r.UpdateMeeting? && r.patch.Keys == editing.value.Keys + data.Keys
    ensures editing.Some? ==> forall k | k in data :: r.patch[k] == data[k]
    ensures editing.Some? ==> forall k | k in editing.value && k !in data :: r.patch[k] == editing.value[k]
    ensures editing.None? ==> r == Store.AddMeeting(data)
  {
    if editing.Some? then Store.UpdateMeeting(editing.value + data) else Store.AddMeeting(data)
  }

  /** `handleDelete`, once the user has confirmed. */
  function Delete(id: Value): (r: Store.Action)
    ensures r.IsDelete() && r.Target() == Store.Meetings && r.id == id
  {
    Store.DeleteMeeting(id)
  }

  // ---------------------------------------------------------------------
  // Completion and notes

  /** `meeting.status === 'completed' ? 'scheduled' : 'completed'` */
  function NextStatus(status: Value): (r: Value)
    ensures r == Str("completed") || r == Str("scheduled")
    ensures r == Str("scheduled") <==> status == Str("completed")
  {
    if StrictEquals(status, Str("completed")) then Str("scheduled") else Str("completed")
  }

  /** Toggling twice returns a completed or scheduled meeting to its status. */
  lemma NextStatusTwice(status: Value)
    requires status == Str("completed") || status == Str("scheduled")
    ensures NextStatus(NextStatus(status)) == status
  {
  }

  /**
   * From any other status (`'confirmed'`, `'cancelled'`, a missing one)
   * toggling twice does not come back: the meeting ends up `'scheduled'`.
   */
  lemma NextStatusTwiceElsewhere(status: Value)
    requires status != Str("completed") && status != Str("scheduled")
    ensures NextStatus(NextStatus(status)) == Str("scheduled") && NextStatus(NextStatus(status)) != status
  {
  }

  /** `{ ...meeting, status: newStatus }`: only the status changes. */
  function Toggled(m: Record): (r: Record)
    ensures r.Keys == m.Keys + {"status"}
    ensures Get(r, "status") == NextStatus(Get(m, "status"))
    ensures forall k | k in m && k != "status" :: r[k] == m[k]
  {
    m["status" := NextStatus(Get(m, "status"))]
  }

  /** The notes window: whether it is open, the meeting it shows, and whether it is read-only. */
  datatype NotesView = NotesView(open: bool, meeting: Option<Record>, readOnly: bool)

  /** What a toggle does: the store action it dispatches and the notes window after it. */
  datatype Toggle = Toggle(action: Store.Action, view: NotesView)

  /**
   * `handleToggleComplete(meeting)`: dispatch the toggled meeting; when it
   * becomes completed, open its notes for writing, otherwise leave the
   * notes window as it was.
   */
  function ToggleComplete(m: Record, view: NotesView): (r: Toggle)
    ensures r.action == Store.UpdateMeeting(Toggled(m))
    ensures Get(m, "status") != Str("completed") ==> r.view == NotesView(true, Some(Toggled(m)), false)
    ensures Get(m, "status") == Str("completed") ==> r.view == view
  {
    var updated := Toggled(m);
    if NextStatus(Get(m, "status")) == Str("completed") then Toggle(Store.UpdateMeeting(updated), NotesView(true, Some(updated), false))
    else Toggle(Store.UpdateMeeting(updated), view)
  }

  /** `handleViewNotes(meeting)`: the meeting's notes, read-only. */
  function ViewNotes(m: Record): (r: NotesView)
    ensures r.open && r.meeting == Some(m) && r.readOnly
  {
    NotesView(true, Some(m), true)
  }

  /** `handleAddNotes(meeting)`: the meeting's notes, for writing. */
  function AddNotes(m: Record): (r: NotesView)
    ensures r.open && r.meeting == Some(m) && !r.readOnly
  {
    NotesView(true, Some(m), false)
  }

  /** `handleSaveNotes(notes)`: the meeting shown with the new notes over it; nothing when none is shown. */
  function SaveNotes(view: NotesView, notes: Value): (r: Option<Store.Action>)
    ensures view.meeting.None? ==> r.None?
    ensures view.meeting.Some? ==>
      r.Some? && r.value.UpdateMeeting?
      && r.value.patch.Keys == view.meeting.value.Keys + {"notes"} && r.value.patch["notes"] == notes
      && forall k | k in view.meeting.value && k != "notes" :: r.value.patch[k] == view.meeting.value[k]
  {
    if view.meeting.Some? then Some(Store.UpdateMeeting(view.meeting.value["notes" := notes])) else None
  }

  /**
   * The notes the window edits once it is given a meeting: the meeting's
   * notes when it has any, otherwise the notes the window held before.
   */
  function NotesOnOpen(previous: Value, meeting: Option<Record>): (r: Value)
    ensures meeting.Some? && Truthy(Get(meeting.value, "notes")) ==> r == Get(meeting.value, "notes")
    ensures !(meeting.Some? && Truthy(Get(meeting.value, "notes"))) ==> r == previous
  {
    if meeting.Some? && Truthy(Get(meeting.value, "notes")) then Get(meeting.value, "notes") else previous
  }

  /** The card offers "View Notes" when some note is filled in. */
  predicate HasNotes(m: Record)
  {
    var notes := Get(m, "notes");
    Truthy(notes) && notes.Obj? && exists k | k in notes.fields :: notes.fields[k].Str? && Filled(notes.fields[k].s)
  }

  /** The empty notes of a new meeting offer nothing to view. */
  lemma NewMeetingHasNoNotes()
    ensures !HasNotes(NewMeeting)
  {
    var fields := EmptyNotes.fields;
    forall k | k in fields ensures !(fields[k].Str? && Filled(fields[k].s)) {
      assert fields[k] == Str("");
    }
  }

  // ---------------------------------------------------------------------
  // In the store

  /**
   * Toggling a stored meeting changes its status and nothing else: the
   * meeting at that place keeps every other field, and every meeting with
   * another id stays as it was.
   */
  lemma ToggleInStore(s: Store.State, i: int, view: NotesView, freshId: Value, now: Value)
    requires 0 <= i < |s.meetings| && Get(s.meetings[i], "id").Str?
    ensures var r := Store.Reduce(s, ToggleComplete(s.meetings[i], view).action, freshId, now);
      |r.meetings| == |s.meetings| && r.meetings[i] == Toggled(s.meetings[i])
      && (forall j | 0 <= j < |s.meetings| && Get(s.meetings[j], "id") != Get(s.meetings[i], "id") :: r.meetings[j] == s.meetings[j])
      && r.tasks == s.tasks && r.trips == s.trips && r.currentTrip == s.currentTrip
  {
    var m := s.meetings[i];
    Store.UpdateMeetingStep(s, Toggled(m), freshId, now);
    assert m + Toggled(m) == Toggled(m);
  }

  /** Toggling a completed or scheduled meeting twice leaves the store's meeting as it was. */
  lemma ToggleTwiceRestores(s: Store.State, i: int, view: NotesView, freshId: Value, now: Value)
    requires 0 <= i < |s.meetings| && Get(s.meetings[i], "id").Str?
    requires Get(s.meetings[i], "status") == Str("completed") || Get(s.meetings[i], "status") == Str("scheduled")
    ensures var once := Store.Reduce(s, ToggleComplete(s.meetings[i], view).action, freshId, now);
      i < |once.meetings|
      && (var twice := Store.Reduce(once, ToggleComplete(once.meetings[i], view).action, freshId, now);
          twice.meetings[i] == s.meetings[i])
  {
    var m := s.meetings[i];
    ToggleInStore(s, i, view, freshId, now);
    var once := Store.Reduce(s, ToggleComplete(m, view).action, freshId, now);
    ToggleInStore(once, i, view, freshId, now);
    NextStatusTwice(Get(m, "status"));
    assert Toggled(Toggled(m)) == m;
  }

  /**
   * Completing a meeting and saving the notes the window then asks for
   * leaves the stored meeting with status `'completed'`, the new notes and
   * every other field as it was.
   */
  lemma CompleteThenSaveNotes(s: Store.State, i: int, view: NotesView, notes: Value, freshId: Value, now: Value)
    requires 0 <= i < |s.meetings| && Get(s.meetings[i], "id").Str?
    requires Get(s.meetings[i], "status") != Str("completed")
    ensures var t := ToggleComplete(s.meetings[i], view);
      var once := Store.Reduce(s, t.action, freshId, now);
      var twice := Store.Dispatch(once, SaveNotes(t.view, notes), freshId, now);
      twice.meetings[i] == s.meetings[i]["status" := Str("completed")]["notes" := notes]
  {
    var m := s.meetings[i];
    var t := ToggleComplete(m, view);
    ToggleInStore(s, i, view, freshId, now);
    var once := Store.Reduce(s, t.action, freshId, now);
    var patch := Toggled(m)["notes" := notes];
    assert SaveNotes(t.view, notes) == Some(Store.UpdateMeeting(patch));
    Store.UpdateMeetingStep(once, patch, freshId, now);
    assert Get(once.meetings[i], "id") == Get(patch, "id");
    assert once.meetings[i] + patch == patch;
  }
}
