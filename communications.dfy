/**
 * The communications page: the recipient list of the form, the letter
 * templates, the submitted record and the save and delete handlers, of
 * which only adding reaches the store.
 */
module CommunicationsPage {
  import opened Values
  import opened Views
  import Store

  /**
   * The form: its text fields (subject, type, content, status,
   * scheduledFor, template) and its recipient list.
   */
  datatype Form = Form(fields: Record, recipients: seq<string>)

  /** The form of a new communication. */
  const NewForm: Form := Form(
    map["subject" := Str(""), "type" := Str("email"), "content" := Str(""), "status" := Str("draft"),
        "scheduledFor" := Str(""), "template" := Str("")],
    [""])

  /** The recipient list always has an entry for the user to type into. */
  predicate WellShaped(f: Form)
  {
    |f.recipients| >= 1
  }

  // ---------------------------------------------------------------------
  // Recipients

  /** `handleRecipientChange`: only the addressed recipient changes. */
  function RecipientChange(f: Form, index: int, value: string): (r: Form)
    ensures |r.recipients| == |f.recipients| && r.fields == f.fields
    ensures 0 <= index < |f.recipients| ==> r.recipients[index] == value
    ensures forall j | 0 <= j < |f.recipients| && j != index :: r.recipients[j] == f.recipients[j]
  {
    f.(recipients := ReplaceAt(f.recipients, index, value))
  }

  /** `addRecipient`: one more, empty, recipient at the end. */
  function AddRecipient(f: Form): (r: Form)
    ensures r.recipients == f.recipients + [""] && r.fields == f.fields
  {
    f.(recipients := f.recipients + [""])
  }

  /** `removeRecipient`: refused while only one recipient is left. */
  function RemoveRecipient(f: Form, index: int): (r: Form)
    ensures |f.recipients| > 1 ==> r.recipients == RemoveAt(f.recipients, index)
    ensures |f.recipients| <= 1 ==> r == f
    ensures r.fields == f.fields
  {
    if |f.recipients| > 1 then f.(recipients := RemoveAt(f.recipients, index)) else f
  }

  /** The blank form is well shaped, and every recipient editor keeps it so. */
  lemma EditorsKeepShape(f: Form, index: int, value: string)
    requires WellShaped(f)
    ensures WellShaped(NewForm)
    ensures WellShaped(RecipientChange(f, index, value))
    ensures WellShaped(AddRecipient(f))
    ensures WellShaped(RemoveRecipient(f, index))
  {
  }

  /** Adding a recipient and removing it again gives the form back. */
  lemma AddThenRemoveRecipient(f: Form)
    requires WellShaped(f)
    ensures RemoveRecipient(AddRecipient(f), |f.recipients|) == f
  {
    assert (f.recipients + [""])[..|f.recipients|] == f.recipients;
  }

  // ---------------------------------------------------------------------
  // Submitting

  /**
   * `handleSubmit`: the form's fields with the current trip's id, the
   * recipients that are not blank once trimmed, and the update time.
   */
  function Submit(f: Form, current: Option<Record>, stamp: Value): (r: Record)
    requires "recipients" !in f.fields
    ensures r.Keys == f.fields.Keys + {"recipients", "tripId", "updatedAt"}
    ensures Get(r, "tripId") == Store.SelectedId(current) && Get(r, "updatedAt") == stamp
    ensures r["recipients"].Arr? && DecodeStrings(r["recipients"].items) == Some(Filter(f.recipients, Filled))
    ensures forall k | k in f.fields && k != "tripId" && k != "updatedAt" :: r[k] == f.fields[k]
  {
    StringsRoundTrip(Filter(f.recipients, Filled));
    Submitted(f.fields, current, map["recipients" := Arr(EncodeStrings(Filter(f.recipients, Filled)))], stamp)
  }

  /** A submitted communication lists exactly the filled-in recipients, in the order they were typed, with none blank. */
  lemma SubmittedRecipients(f: Form, current: Option<Record>, stamp: Value)
    requires "recipients" !in f.fields
    ensures var list := DecodeStrings(Submit(f, current, stamp)["recipients"].items);
      list.Some?
      && (forall x :: x in list.value <==> x in f.recipients && !Blank(x))
      && |list.value| <= |f.recipients|
  {
    forall x | x in f.recipients {
      FilledIffNotBlank(x);
    }
  }

  /** Submitting the blank form gives a communication with no recipients. */
  lemma BlankFormHasNoRecipients(current: Option<Record>, stamp: Value)
    ensures DecodeStrings(Submit(NewForm, current, stamp)["recipients"].items) == Some([])
  {
    assert !Filled("");
    assert Filter([""], Filled) == [];
  }

  // ---------------------------------------------------------------------
  // Templates

  /** A letter template: the subject and body it fills in. */
  datatype Template = Template(subject: string, content: string)

  const Templates: map<string, Template> := map[
    "save-date" := Template(
      "Save the Date - {Trip Name}",
      "Dear {Name},\n\nWe are excited to invite you to join us for our upcoming trip to {Destination}.\n\nDates: {Start Date} - {End Date}\n\nMore details to follow soon.\n\nBest regards,\n{Your Name}"),
    "thank-you" := Template(
      "Thank You - {Trip Name}",
      "Dear {Name},\n\nThank you so much for taking the time to meet with us during our recent trip to {Destination}.\n\nYour support means the world to us and the communities we serve.\n\nWe look forward to staying in touch.\n\nWith gratitude,\n{Your Name}"),
    "visa-invite" := Template(
      "Visa Invitation Letter - {Trip Name}",
      "Dear {Name},\n\nPlease find attached your visa invitation letter for our upcoming trip to {Destination}.\n\nTrip Details:\n- Dates: {Start Date} - {End Date}\n- Purpose: {Purpose}\n\nPlease process your visa application at your earliest convenience.\n\nBest regards,\n{Your Name}")
  ]

  /**
   * `loadTemplate`: a known key fills in the template's subject and body
   * and sets the type to the key; any other key leaves the form as it is.
   */
  function LoadTemplate(f: Form, key: string): (r: Form)
    ensures key in Templates ==>
      r.recipients == f.recipients
      && r.fields == f.fields["subject" := Str(Templates[key].subject)]["content" := Str(Templates[key].content)]["type" := Str(key)]
    ensures key !in Templates ==> r == f
  {
    if key in Templates then
      var t := Templates[key];
      f.(fields := f.fields + map["subject" := Str(t.subject), "content" := Str(t.content), "type" := Str(key)])
    else f
  }

  /** The template drop-down: it records the choice, then loads the template when the choice is not empty. */
  function ChooseTemplate(f: Form, value: string): (r: Form)
    ensures r.recipients == f.recipients && Get(r.fields, "template") == Str(value)
    ensures value !in Templates ==> r.fields == f.fields["template" := Str(value)]
    ensures value in Templates ==>
      Get(r.fields, "subject") == Str(Templates[value].subject)
      && Get(r.fields, "content") == Str(Templates[value].content) && Get(r.fields, "type") == Str(value)
  {
    var chosen := f.(fields := f.fields["template" := Str(value)]);
    if value != "" then LoadTemplate(chosen, value) else chosen
  }

  /** Every template offered is a type the type drop-down offers, and the empty choice is no template. */
  lemma TemplatesAreTypes(key: string)
    requires key in Templates
    ensures key in {"email", "save-date", "thank-you", "visa-invite", "follow-up"} && key != ""
  {
  }

  /** Loading the same template twice is loading it once. */
  lemma LoadTemplateIdempotent(f: Form, key: string)
    ensures LoadTemplate(LoadTemplate(f, key), key) == LoadTemplate(f, key)
  {
  }

  // ---------------------------------------------------------------------
  // Saving and deleting

  /** `handleSave`: a new communication is added; an edited one only produces a message. */
  function Save(editing: Option<Record>, data: Record): (r: Option<Store.Action>)
    ensures editing.None? ==> r == Some(Store.AddCommunication(data))
    ensures editing.Some? ==> r.None?
  {
    if editing.Some? then None else Some(Store.AddCommunication(data))
  }

  /** `handleDelete`: the confirmed branch only shows a message. */
  function Delete(id: Value): (r: Option<Store.Action>)
  {
    None
  }

  /** Saving an edited communication, and deleting one, leave the store exactly as it was. */
  lemma EditAndDeleteKeepStore(s: Store.State, editing: Record, data: Record, id: Value, freshId: Value, now: Value)
    ensures Store.Dispatch(s, Save(Some(editing), data), freshId, now) == s
    ensures Store.Dispatch(s, Delete(id), freshId, now) == s
  {
  }

  /** A new communication joins the trip's list, and shows under every filter that matches its status. */
  lemma NewCommunicationIsListed(s: Store.State, f: Form, stamp: Value, filter: string, freshId: Value, now: Value)
    requires s.currentTrip.Some? && Get(s.currentTrip.value, "id").Str?
    requires "recipients" !in f.fields
    requires filter == "all" || Get(f.fields, "status") == Str(filter)
    ensures var r := Store.Dispatch(s, Save(None, Submit(f, s.currentTrip, stamp)), freshId, now);
      |r.communications| == |s.communications| + 1
      && r.communications[|s.communications|] in StatusFilter(OfCurrentTrip(r.communications, r.currentTrip), filter)
  {
    var data := Submit(f, s.currentTrip, stamp);
    var added := Store.Stamp(data, freshId, now);
    Store.AddCommunicationStep(s, data, freshId, now);
    var list := s.communications + [added];
    assert added in list;
    StampedIsListed(f, s.currentTrip, stamp, filter, freshId, now);
    assert added in OfCurrentTrip(list, s.currentTrip);
  }

  /** The stored record keeps the form's status and carries the trip's id. */
  lemma StampedIsListed(f: Form, current: Option<Record>, stamp: Value, filter: string, freshId: Value, now: Value)
    requires current.Some? && Get(current.value, "id").Str?
    requires "recipients" !in f.fields
    requires filter == "all" || Get(f.fields, "status") == Str(filter)
    ensures var added := Store.Stamp(Submit(f, current, stamp), freshId, now);
      StrictEquals(Get(added, "tripId"), Store.SelectedId(current))
      && (filter == "all" || Get(added, "status") == Str(filter))
  {
  }
}
