/**
 * The new-trip form: its field editors, the clean-up of the submitted
 * destinations and team, and the submission, which adds the trip and then
 * the twelve default tasks of a trip's checklist.
 *
 * `calculateDueDate` (calendar arithmetic on the start date), `Date.now()`
 * and the identifiers and times the store stamps are parameters: the model
 * receives what they return.
 */
module TripSetupPage {
  import opened Values
  import opened Views
  import opened Destinations
  import Store

  datatype Form = Form(name: string, startDate: string, endDate: string,
                       destinations: seq<Destination>, teamMembers: seq<string>)

  /** The empty form: one destination with one empty city, one empty team member. */
  const InitialForm := Form("", "", "", [Destination("", [""])], [""])

  /**
   * The shape the form's buttons keep: at least one destination, every
   * destination with at least one city field, at least one team member.
   */
  predicate WellShaped(f: Form)
  {
    |f.destinations| > 0 && |f.teamMembers| > 0
    && forall i | 0 <= i < |f.destinations| :: |f.destinations[i].cities| > 0
  }

  // ---------------------------------------------------------------------
  // Editors

  datatype Field = Name | StartDate | EndDate

  /** `handleInputChange(field, value)`: one text field takes the value. */
  function InputChange(f: Form, field: Field, value: string): (r: Form)
    ensures r.destinations == f.destinations && r.teamMembers == f.teamMembers
    ensures field.Name? ==> r == f.(name := value)
    ensures field.StartDate? ==> r == f.(startDate := value)
    ensures field.EndDate? ==> r == f.(endDate := value)
  {
    match field
    case Name => f.(name := value)
    case StartDate => f.(startDate := value)
    case EndDate => f.(endDate := value)
  }

  /** `handleDestinationChange(index, 'country', value)` */
  function CountryChange(f: Form, index: int, value: string): (r: Form)
    ensures |r.destinations| == |f.destinations|
    ensures forall i | 0 <= i < |f.destinations| ::
      r.destinations[i] == if i == index then f.destinations[i].(country := value) else f.destinations[i]
    ensures r == f.(destinations := r.destinations)
  {
    f.(destinations := if 0 <= index < |f.destinations|
                       then ReplaceAt(f.destinations, index, f.destinations[index].(country := value))
                       else f.destinations)
  }

  /** `handleCityChange(destIndex, cityIndex, value)` */
  function CityChange(f: Form, destIndex: int, cityIndex: int, value: string): (r: Form)
    ensures |r.destinations| == |f.destinations|
    ensures forall i | 0 <= i < |f.destinations| && i != destIndex :: r.destinations[i] == f.destinations[i]
    ensures 0 <= destIndex < |f.destinations| ==>
      r.destinations[destIndex].country == f.destinations[destIndex].country
      && r.destinations[destIndex].cities == ReplaceAt(f.destinations[destIndex].cities, cityIndex, value)
    ensures r == f.(destinations := r.destinations)
  {
    if 0 <= destIndex < |f.destinations| then
      var d := f.destinations[destIndex];
      f.(destinations := f.destinations[destIndex := d.(cities := ReplaceAt(d.cities, cityIndex, value))])
    else f
  }

  /** `addDestination`: a new empty destination at the end. */
  function AddDestination(f: Form): (r: Form)
    ensures r.destinations == f.destinations + [Destination("", [""])]
    ensures r == f.(destinations := r.destinations)
  {
    f.(destinations := f.destinations + [Destination("", [""])])
  }

  /** `removeDestination(index)`: refused while only one destination is left. */
  function RemoveDestination(f: Form, index: int): (r: Form)
    ensures |f.destinations| > 1 ==> r.destinations == RemoveAt(f.destinations, index)
    ensures |f.destinations| <= 1 ==> r == f
    ensures r == f.(destinations := r.destinations)
  {
    if |f.destinations| > 1 then f.(destinations := RemoveAt(f.destinations, index)) else f
  }

  /** `addCity(destIndex)`: a new empty city at the end of one destination. */
  function AddCity(f: Form, destIndex: int): (r: Form)
    ensures |r.destinations| == |f.destinations|
    ensures forall i | 0 <= i < |f.destinations| ::
      r.destinations[i] == if i == destIndex then f.destinations[i].(cities := f.destinations[i].cities + [""]) else f.destinations[i]
    ensures r == f.(destinations := r.destinations)
  {
    if 0 <= destIndex < |f.destinations| then
      var d := f.destinations[destIndex];
      f.(destinations := f.destinations[destIndex := d.(cities := d.cities + [""])])
    else f
  }

  /**
   * `removeCity(destIndex, cityIndex)`: the handler itself does not refuse
   * to remove the last city; the form only offers the button while a
   * destination has more than one.
   */
  function RemoveCity(f: Form, destIndex: int, cityIndex: int): (r: Form)
    ensures |r.destinations| == |f.destinations|
    ensures forall i | 0 <= i < |f.destinations| ::
      r.destinations[i] == if i == destIndex then f.destinations[i].(cities := RemoveAt(f.destinations[i].cities, cityIndex)) else f.destinations[i]
    ensures r == f.(destinations := r.destinations)
  {
    if 0 <= destIndex < |f.destinations| then
      var d := f.destinations[destIndex];
      f.(destinations := f.destinations[destIndex := d.(cities := RemoveAt(d.cities, cityIndex))])
    else f
  }

  /** `handleArrayChange('teamMembers', index, value)` */
  function MemberChange(f: Form, index: int, value: string): (r: Form)
    ensures r.teamMembers == ReplaceAt(f.teamMembers, index, value)
    ensures r == f.(teamMembers := r.teamMembers)
  {
    f.(teamMembers := ReplaceAt(f.teamMembers, index, value))
  }

  /** `addArrayItem('teamMembers')` */
  function AddMember(f: Form): (r: Form)
    ensures r.teamMembers == f.teamMembers + [""]
    ensures r == f.(teamMembers := r.teamMembers)
  {
    f.(teamMembers := f.teamMembers + [""])
  }

  /** `removeArrayItem('teamMembers', index)`: refused while only one member is left. */
  function RemoveMember(f: Form, index: int): (r: Form)
    ensures |f.teamMembers| > 1 ==> r.teamMembers == RemoveAt(f.teamMembers, index)
    ensures |f.teamMembers| <= 1 ==> r == f
    ensures r == f.(teamMembers := r.teamMembers)
  {
    if |f.teamMembers| > 1 then f.(teamMembers := RemoveAt(f.teamMembers, index)) else f
  }

  /** The form starts well shaped. */
  lemma InitialWellShaped()
    ensures WellShaped(InitialForm)
  {
  }

  /** The text fields and the team editors keep the form well shaped. */
  lemma FieldEditorsKeepShape(f: Form, field: Field, i: int, value: string)
    requires WellShaped(f)
    ensures WellShaped(InputChange(f, field, value))
    ensures WellShaped(MemberChange(f, i, value))
    ensures WellShaped(AddMember(f))
    ensures WellShaped(RemoveMember(f, i))
  {
  }

  /** Adding, editing and removing destinations keep the form well shaped. */
  lemma DestinationEditorsKeepShape(f: Form, i: int, value: string)
    requires WellShaped(f)
    ensures WellShaped(CountryChange(f, i, value))
    ensures WellShaped(AddDestination(f))
    ensures WellShaped(RemoveDestination(f, i))
  {
    var ds := f.destinations;
    if |ds| > 1 && 0 <= i < |ds| {
      var r := RemoveAt(ds, i);
      forall k | 0 <= k < |r| ensures |r[k].cities| > 0 {
        if k < i { assert r[k] == ds[k]; } else { assert r[k] == ds[k + 1]; }
      }
    }
  }

  /**
   * The city editors keep the form well shaped; removing a city keeps it so
   * under the condition on which the form shows that button.
   */
  lemma CityEditorsKeepShape(f: Form, i: int, j: int, value: string)
    requires WellShaped(f)
    ensures WellShaped(CityChange(f, i, j, value))
    ensures WellShaped(AddCity(f, i))
    ensures 0 <= i < |f.destinations| && |f.destinations[i].cities| > 1 ==> WellShaped(RemoveCity(f, i, j))
  {
  }

  // ---------------------------------------------------------------------
  // Submission

  /** `dest.country.trim() && dest.cities.some(city => city.trim())` */
  predicate Kept(d: Destination)
  {
    Filled(d.country) && exists j | 0 <= j < |d.cities| :: Filled(d.cities[j])
  }

  /** `{ ...dest, cities: dest.cities.filter(city => city.trim()) }` */
  function FilledCities(d: Destination): (r: Destination)
    ensures r.country == d.country
    ensures forall c :: c in r.cities <==> c in d.cities && Filled(c)
    ensures Kept(d) ==> |r.cities| > 0
  {
    var r := d.(cities := Filter(d.cities, Filled));
    if Kept(d) then
      var j :| 0 <= j < |d.cities| && Filled(d.cities[j]);
      assert d.cities[j] in r.cities;
      r
    else r
  }

  /** A destination and all of its cities are filled in. */
  predicate Complete(d: Destination)
  {
    Filled(d.country) && |d.cities| > 0 && forall j | 0 <= j < |d.cities| :: Filled(d.cities[j])
  }

  /**
   * The destinations a trip is created with: those with a filled-in
   * country and at least one filled-in city, each without its empty
   * cities, in the order of the form.
   */
  function CleanDestinations(ds: seq<Destination>): (r: seq<Destination>)
    ensures |r| <= |ds|
    ensures forall i | 0 <= i < |r| :: Complete(r[i])
  {
    if ds == [] then []
    else
      var rest := CleanDestinations(ds[1..]);
      if Kept(ds[0]) then
        var d := FilledCities(ds[0]);
        assert Complete(d) by {
          forall j | 0 <= j < |d.cities| ensures Filled(d.cities[j]) { assert d.cities[j] in d.cities; }
        }
        [d] + rest
      else rest
  }

  /** A destination is created exactly when it is kept, and then without its empty cities. */
  lemma {:induction false} CleanDestinationsMembers(ds: seq<Destination>)
    ensures forall d :: d in CleanDestinations(ds) <==> exists i | 0 <= i < |ds| :: Kept(ds[i]) && d == FilledCities(ds[i])
  {
    if ds != [] {
      CleanDestinationsMembers(ds[1..]);
      forall d ensures d in CleanDestinations(ds) <==> exists i | 0 <= i < |ds| :: Kept(ds[i]) && d == FilledCities(ds[i]) {
        if exists i | 0 <= i < |ds| :: Kept(ds[i]) && d == FilledCities(ds[i]) {
          var i :| 0 <= i < |ds| && Kept(ds[i]) && d == FilledCities(ds[i]);
          if i > 0 { assert ds[1..][i - 1] == ds[i]; }
        }
        if d in CleanDestinations(ds[1..]) {
          var i :| 0 <= i < |ds[1..]| && Kept(ds[1..][i]) && d == FilledCities(ds[1..][i]);
          assert ds[i + 1] == ds[1..][i];
        }
      }
    }
  }

  /** A complete destination passes the clean-up unchanged. */
  lemma CompleteIsClean(d: Destination)
    requires Complete(d)
    ensures Kept(d) && FilledCities(d) == d
  {
    assert Filled(d.cities[0]);
    FilterKeepsAll(d.cities, Filled);
  }

  /** Cleaning the destinations once is enough: the result is already clean. */
  lemma {:induction false} CleanDestinationsIdempotent(ds: seq<Destination>)
    ensures CleanDestinations(CleanDestinations(ds)) == CleanDestinations(ds)
  {
    var r := CleanDestinations(ds);
    CleanIsIdentity(r);
  }

  lemma {:induction false} CleanIsIdentity(ds: seq<Destination>)
    requires forall i | 0 <= i < |ds| :: Complete(ds[i])
    ensures CleanDestinations(ds) == ds
  {
    if ds != [] {
      CompleteIsClean(ds[0]);
      CleanIsIdentity(ds[1..]);
    }
  }

  /** `teamMembers.filter(m => m.trim())` */
  function CleanMembers(members: seq<string>): (r: seq<string>)
    ensures forall m :: m in r <==> m in members && Filled(m)
  {
    Filter(members, Filled)
  }

  /**
   * `tripData`: the form with the cleaned destinations and team, status
   * `'planning'` and a creation time.  What it stores decodes back to the
   * cleaned lists.
   */
  function TripData(f: Form, now: Value): (r: Record)
    ensures r.Keys == {"name", "startDate", "endDate", "destinations", "teamMembers", "status", "createdAt"}
    ensures Decode(r["destinations"]) == Some(CleanDestinations(f.destinations))
    ensures r["teamMembers"].Arr? && DecodeStrings(r["teamMembers"].items) == Some(CleanMembers(f.teamMembers))
    ensures r["name"] == Str(f.name) && r["status"] == Str("planning") && r["createdAt"] == now
  {
    var destinations := Encode(CleanDestinations(f.destinations));
    var team := EncodeStrings(CleanMembers(f.teamMembers));
    RoundTrip(CleanDestinations(f.destinations));
    StringsRoundTrip(CleanMembers(f.teamMembers));
    map["name" := Str(f.name), "startDate" := Str(f.startDate), "endDate" := Str(f.endDate),
        "destinations" := destinations, "teamMembers" := Arr(team),
        "status" := Str("planning"), "createdAt" := now]
  }

  /** A task of the default checklist, with its due date as days from the start date. */
  datatype Template = Template(title: string, category: string, dueOffset: int, priority: string, description: string)

  const DefaultTasks: seq<Template> := [
    Template("Obtain visa letters", "Documentation", -120, "high", "Request and receive visa invitation letters for all countries"),
    Template("Book flights", "Travel", -90, "high", "Book international and domestic flights"),
    Template("Arrange accommodation", "Travel", -75, "medium", "Book hotels and guest house accommodations"),
    Template("Prepare presentation materials", "Content", -60, "high", "Create slides, videos, and supporting materials"),
    Template("Schedule donor meetings", "Meetings", -45, "high", "Coordinate meetings with major donors and prospects"),
    Template("Finalize event venues", "Events", -30, "medium", "Confirm venues for fundraising events"),
    Template("Send save-the-date notifications", "Communications", -30, "medium", "Notify attendees about upcoming events"),
    Template("Prepare travel insurance", "Documentation", -14, "medium", "Arrange comprehensive travel insurance"),
    Template("Final event confirmations", "Events", -7, "high", "Confirm all event details and logistics"),
    Template("Send thank you notes", "Communications", 3, "high", "Send personalized thank you messages to all contacts"),
    Template("Follow up on pledges", "Fundraising", 14, "high", "Contact donors to confirm and collect pledges"),
    Template("Compile trip report", "Reporting", 30, "medium", "Create comprehensive trip report with metrics and learnings")
  ]

  /** The default checklist runs from four months before the start to a month after, in due order. */
  lemma DefaultTasksInDueOrder()
    ensures |DefaultTasks| == 12
    ensures forall i, j | 0 <= i < j < |DefaultTasks| :: DefaultTasks[i].dueOffset <= DefaultTasks[j].dueOffset
    ensures forall i | 0 <= i < |DefaultTasks| :: -120 <= DefaultTasks[i].dueOffset <= 30
  {
  }

  /**
   * `formData.teamMembers[0] || 'Unassigned'`: the first member field as
   * typed (not the cleaned team), or `'Unassigned'` when it is empty.
   */
  function Assignee(f: Form): (r: string)
    ensures r != ""
    ensures |f.teamMembers| > 0 && f.teamMembers[0] != "" ==> r == f.teamMembers[0]
    ensures |f.teamMembers| == 0 || f.teamMembers[0] == "" ==> r == "Unassigned"
  {
    if |f.teamMembers| > 0 && f.teamMembers[0] != "" then f.teamMembers[0] else "Unassigned"
  }

  /**
   * `taskData`: the template's fields, the trip id the page uses, status
   * `'not-started'`, the due date computed from the start date, the
   * assignee and a creation time.
   */
  function TaskData(t: Template, f: Form, tripId: Value, due: (string, int) -> Value, now: Value): Record
  {
    map["title" := Str(t.title), "category" := Str(t.category), "dueOffset" := Num(t.dueOffset),
        "priority" := Str(t.priority), "description" := Str(t.description),
        "tripId" := tripId, "status" := Str("not-started"), "dueDate" := due(f.startDate, t.dueOffset),
        "assignee" := Str(Assignee(f)), "createdAt" := now]
  }

  /**
   * The trip as the store keeps it: the first add of a submission, with the
   * identifier and time the store stamps on it.
   */
  function NewTrip(f: Form, ids: nat -> Value, clock: nat -> Value): (r: Record)
    ensures Get(r, "id") == ids(0) && Get(r, "status") == Str("planning")
    ensures Decode(Get(r, "destinations")) == Some(CleanDestinations(f.destinations))
  {
    Store.Stamp(TripData(f, clock(0)), ids(0), clock(0))
  }

  /**
   * One default task as the store keeps it: the template's fields, the
   * given trip id, status `'not-started'`, the due date and the assignee,
   * under the identifier and time the store stamps on it.
   */
  function NewTask(t: Template, f: Form, tripId: Value, due: (string, int) -> Value, id: Value, now: Value): (r: Record)
    ensures Get(r, "tripId") == tripId && Get(r, "id") == id && Get(r, "status") == Str("not-started")
    ensures Get(r, "title") == Str(t.title) && Get(r, "category") == Str(t.category) && Get(r, "priority") == Str(t.priority)
    ensures Get(r, "dueDate") == due(f.startDate, t.dueOffset) && Get(r, "assignee") == Str(Assignee(f))
  {
    Store.Stamp(TaskData(t, f, tripId, due, now), id, now)
  }

  /**
   * The tasks a submission adds, the n-th template stamped by the
   * (n + 1)-th add: all under the given trip id, each with its own
   * identifier.
   */
  function NewTasks(templates: seq<Template>, f: Form, tripId: Value, due: (string, int) -> Value,
                    ids: nat -> Value, clock: nat -> Value): (r: seq<Record>)
    ensures |r| == |templates|
    ensures forall i | 0 <= i < |r| :: Get(r[i], "tripId") == tripId && Get(r[i], "id") == ids(i + 1)
  {
    seq(|templates|, i requires 0 <= i < |templates| => NewTask(templates[i], f, tripId, due, ids(i + 1), clock(i + 1)))
  }

  /**
   * The loop of `handleSubmit`: `defaultTasks.forEach(task => addTask(...))`
   * with the given trip id.  Only the task list changes, and it grows by
   * one new task per template, in template order.
   */
  method AddDefaultTasks(s: Store.State, templates: seq<Template>, f: Form, tripId: Value, due: (string, int) -> Value,
                         ids: nat -> Value, clock: nat -> Value) returns (r: Store.State)
    ensures r == s.(tasks := s.tasks + NewTasks(templates, f, tripId, due, ids, clock))
  {
    ghost var tasks := NewTasks(templates, f, tripId, due, ids, clock);
    r := s;
    for i := 0 to |templates|
      invariant r == s.(tasks := s.tasks + tasks[..i])
    {
      var data := TaskData(templates[i], f, tripId, due, clock(i + 1));
      assert tasks[i] == Store.Stamp(data, ids(i + 1), clock(i + 1));
      Store.AddTaskExtends(s, tasks, i, data, ids(i + 1), clock(i + 1));
      r := Store.Reduce(r, Store.AddTask(data), ids(i + 1), clock(i + 1));
    }
    assert tasks[..|templates|] == tasks;
  }

  /**
   * `handleSubmit` as written: add the trip (which becomes the current
   * trip), then the default tasks under `Date.now().toString()` — the text
   * `stamp` — as their trip id.
   */
  method Submit(s: Store.State, f: Form, stamp: string, due: (string, int) -> Value,
                ids: nat -> Value, clock: nat -> Value) returns (r: Store.State)
    ensures r.trips == s.trips + [NewTrip(f, ids, clock)]
    ensures r.currentTrip == Some(NewTrip(f, ids, clock))
    ensures r.tasks == s.tasks + NewTasks(DefaultTasks, f, Str(stamp), due, ids, clock)
    ensures r.meetings == s.meetings && r.documents == s.documents && r.expenses == s.expenses
         && r.pledges == s.pledges && r.communications == s.communications
  {
    Store.AddTripStep(s, TripData(f, clock(0)), ids(0), clock(0));
    r := Store.Reduce(s, Store.AddTrip(TripData(f, clock(0))), ids(0), clock(0));
    var tripId := Str(stamp);
    r := AddDefaultTasks(r, DefaultTasks, f, tripId, due, ids, clock);
  }

  /**
   * The default tasks as written never reach their trip: whenever the id
   * the store gives the trip differs from the `Date.now()` text, the trip's
   * task list (what the task board, the dashboard and the timeline show)
   * is the same as before the submission.
   */
  lemma {:induction false} DefaultTasksMissTheirTrip(tasks: seq<Record>, f: Form, stamp: string, due: (string, int) -> Value,
                                                     ids: nat -> Value, clock: nat -> Value)
    requires ids(0) != Str(stamp)
    ensures ForTrip(tasks + NewTasks(DefaultTasks, f, Str(stamp), due, ids, clock), ids(0)) == ForTrip(tasks, ids(0))
  {
    var added := NewTasks(DefaultTasks, f, Str(stamp), due, ids, clock);
    ForTripConcat(tasks, added, ids(0));
    FilterKeepsNone(added, (x: Record) => StrictEquals(Get(x, "tripId"), ids(0)));
  }

  /** The store's identifiers are UUIDs, which contain '-', while `Date.now().toString()` is all digits. */
  lemma UuidIsNotATimestamp(uuid: string, stamp: string)
    requires exists i | 0 <= i < |uuid| :: uuid[i] == '-'
    requires forall i | 0 <= i < |stamp| :: '0' <= stamp[i] <= '9'
    ensures Str(uuid) != Str(stamp)
  {
  }

  /** `handleSubmit` with the default tasks filed under the id the store gave the new trip. */
  method SubmitLinked(s: Store.State, f: Form, due: (string, int) -> Value,
                      ids: nat -> Value, clock: nat -> Value) returns (r: Store.State)
    ensures r.trips == s.trips + [NewTrip(f, ids, clock)]
    ensures r.currentTrip == Some(NewTrip(f, ids, clock))
    ensures r.tasks == s.tasks + NewTasks(DefaultTasks, f, ids(0), due, ids, clock)
    ensures r.meetings == s.meetings && r.documents == s.documents && r.expenses == s.expenses
         && r.pledges == s.pledges && r.communications == s.communications
  {
    Store.AddTripStep(s, TripData(f, clock(0)), ids(0), clock(0));
    r := Store.Reduce(s, Store.AddTrip(TripData(f, clock(0))), ids(0), clock(0));
    var tripId := Store.SelectedId(r.currentTrip);
    r := AddDefaultTasks(r, DefaultTasks, f, tripId, due, ids, clock);
  }

  /**
   * With the trip's own id the twelve default tasks join the new trip's
   * task list, after the tasks it already had and in template order.
   */
  lemma {:induction false} DefaultTasksJoinTheirTrip(tasks: seq<Record>, f: Form, due: (string, int) -> Value,
                                                     ids: nat -> Value, clock: nat -> Value)
    requires ids(0).Str?
    ensures ForTrip(tasks + NewTasks(DefaultTasks, f, ids(0), due, ids, clock), ids(0))
         == ForTrip(tasks, ids(0)) + NewTasks(DefaultTasks, f, ids(0), due, ids, clock)
  {
    var added := NewTasks(DefaultTasks, f, ids(0), due, ids, clock);
    ForTripConcat(tasks, added, ids(0));
    FilterKeepsAll(added, (x: Record) => StrictEquals(Get(x, "tripId"), ids(0)));
  }
}
