/**
 * The timeline page: the current trip's tasks and meetings as one list of
 * entries in date order, the status and category filters, the categories
 * offered by the category filter, and the completion toggle of the
 * meeting entries.
 *
 * The relative day counts ("In 3 days") compare with the clock and are not
 * part of this model.
 */
module TimelinePage {
  import opened Values
  import opened Views
  import MeetingsPage
  import Store

  /** A timeline entry: the record with its kind, its date (taken from `dateField`), its title and its status written over it. */
  function Item(x: Record, kind: string, dateField: string): Record
  {
    x + map["type" := Str(kind), "date" := Get(x, dateField), "title" := Get(x, "title"), "status" := Get(x, "status")]
  }

  /** An entry keeps every other field of its record, its id and trip id included. */
  lemma ItemFields(x: Record, kind: string, dateField: string)
    ensures var r := Item(x, kind, dateField);
      r.Keys == x.Keys + {"type", "date", "title", "status"}
      && Get(r, "type") == Str(kind) && Get(r, "date") == Get(x, dateField)
      && Get(r, "title") == Get(x, "title") && Get(r, "status") == Get(x, "status")
      && forall k | k in x && k !in {"type", "date", "title", "status"} :: r[k] == x[k]
  {
  }

  /** `{ ...task, type: 'task', date: task.dueDate, ... }` */
  function TaskItem(t: Record): Record
  {
    Item(t, "task", "dueDate")
  }

  /** `{ ...meeting, type: 'meeting', date: meeting.date, ... }` */
  function MeetingItem(m: Record): Record
  {
    Item(m, "meeting", "date")
  }

  /** The entries of a list of records, one per record, in order. */
  function Items(xs: seq<Record>, kind: string, dateField: string): (r: seq<Record>)
    ensures |r| == |xs|
    ensures forall i | 0 <= i < |xs| :: r[i] == Item(xs[i], kind, dateField)
  {
    if xs == [] then [] else Items(xs[..|xs| - 1], kind, dateField) + [Item(xs[|xs| - 1], kind, dateField)]
  }

  /** The entries in the order they are pushed: the trip's tasks, then the trip's meetings. */
  function Pushed(tasks: seq<Record>, meetings: seq<Record>, current: Option<Record>): seq<Record>
  {
    Items(OfCurrentTrip(tasks, current), "task", "dueDate") + Items(OfCurrentTrip(meetings, current), "meeting", "date")
  }

  /**
   * `timelineItems`: nothing without a current trip; otherwise every task
   * and every meeting of the trip as an entry, in date order.
   */
  function Timeline(tasks: seq<Record>, meetings: seq<Record>, current: Option<Record>): (r: seq<Record>)
    ensures current.None? ==> r == []
    ensures current.Some? ==> multiset(r) == multiset(Pushed(tasks, meetings, current))
    ensures SortedByDate(r)
  {
    if current.None? then [] else SortByDate(Pushed(tasks, meetings, current))
  }

  /** `xs.forEach(x => items.push({ ...x, type: kind, ... }))` */
  method PushItems(list: seq<Record>, xs: seq<Record>, kind: string, dateField: string) returns (r: seq<Record>)
    ensures r == list + Items(xs, kind, dateField)
  {
    r := list;
    for i := 0 to |xs|
      invariant r == list + Items(xs[..i], kind, dateField)
    {
      r := r + [Item(xs[i], kind, dateField)];
      assert xs[..i + 1][..i] == xs[..i];
    }
    assert xs[..|xs|] == xs;
  }

  /** The `useMemo` that builds `timelineItems`: the pushes of the tasks, then of the meetings, then the sort. */
  method TimelineItems(tasks: seq<Record>, meetings: seq<Record>, current: Option<Record>) returns (items: seq<Record>)
    ensures items == Timeline(tasks, meetings, current)
  {
    if current.None? {
      return [];
    }
    var list := PushItems([], OfCurrentTrip(tasks, current), "task", "dueDate");
    assert list == Items(OfCurrentTrip(tasks, current), "task", "dueDate");
    list := PushItems(list, OfCurrentTrip(meetings, current), "meeting", "date");
    items := SortByDate(list);
  }

  /** Each pushed entry is of the trip, and a task or a meeting entry. */
  lemma PushedEntry(tasks: seq<Record>, meetings: seq<Record>, current: Option<Record>, k: int)
    requires 0 <= k < |Pushed(tasks, meetings, current)|
    ensures var x := Pushed(tasks, meetings, current)[k];
      StrictEquals(Get(x, "tripId"), Store.SelectedId(current))
      && (Get(x, "type") == Str("task") || Get(x, "type") == Str("meeting"))
  {
    var ts, ms := OfCurrentTrip(tasks, current), OfCurrentTrip(meetings, current);
    var id := Store.SelectedId(current);
    var it, im := Items(ts, "task", "dueDate"), Items(ms, "meeting", "date");
    assert Pushed(tasks, meetings, current) == it + im;
    if k < |it| {
      var x := ts[k];
      assert x in ts;
      EntryOfTrip(x, "task", "dueDate", id);
      assert (it + im)[k] == it[k] == Item(x, "task", "dueDate");
    } else {
      var x := ms[k - |it|];
      assert x in ms;
      EntryOfTrip(x, "meeting", "date", id);
      assert (it + im)[k] == im[k - |it|] == Item(x, "meeting", "date");
    }
  }

  /** An entry is of the trip its record is of, and has its kind as its type. */
  lemma EntryOfTrip(x: Record, kind: string, dateField: string, id: Value)
    requires StrictEquals(Get(x, "tripId"), id)
    ensures StrictEquals(Get(Item(x, kind, dateField), "tripId"), id)
    ensures Get(Item(x, kind, dateField), "type") == Str(kind)
  {
    ItemFields(x, kind, dateField);
  }

  /**
   * The timeline has one entry per task and per meeting of the trip, each
   * of the trip, each a task or a meeting entry.
   */
  lemma TimelineContents(tasks: seq<Record>, meetings: seq<Record>, current: Option<Record>)
    requires current.Some?
    ensures var r := Timeline(tasks, meetings, current);
      |r| == |OfCurrentTrip(tasks, current)| + |OfCurrentTrip(meetings, current)|
      && forall x | x in r :: StrictEquals(Get(x, "tripId"), Store.SelectedId(current))
                           && (Get(x, "type") == Str("task") || Get(x, "type") == Str("meeting"))
  {
    var r := Timeline(tasks, meetings, current);
    var p := Pushed(tasks, meetings, current);
    assert |r| == |p| by {
      assert |multiset(r)| == |multiset(p)|;
    }
    forall x | x in r
      ensures StrictEquals(Get(x, "tripId"), Store.SelectedId(current))
      ensures Get(x, "type") == Str("task") || Get(x, "type") == Str("meeting")
    {
      assert x in multiset(p);
      var k :| 0 <= k < |p| && p[k] == x;
      PushedEntry(tasks, meetings, current, k);
    }
  }

  /** A meeting of the trip appears on the timeline as its meeting entry. */
  lemma MeetingOnTimeline(tasks: seq<Record>, meetings: seq<Record>, current: Option<Record>, m: Record)
    requires current.Some? && m in OfCurrentTrip(meetings, current)
    ensures MeetingItem(m) in Timeline(tasks, meetings, current)
  {
    var ts, ms := OfCurrentTrip(tasks, current), OfCurrentTrip(meetings, current);
    var j :| 0 <= j < |ms| && ms[j] == m;
    var p := Pushed(tasks, meetings, current);
    assert p[|ts| + j] == MeetingItem(m);
    assert MeetingItem(m) in multiset(Timeline(tasks, meetings, current));
  }

  /**
   * `filteredItems`: an entry passes when the status filter is `'all'` or
   * matches its status, and the category filter is `'all'` or matches its
   * category.
   */
  function FilteredItems(items: seq<Record>, status: string, category: string): (r: seq<Record>)
    ensures forall x :: x in r <==>
      x in items && (status == "all" || Get(x, "status") == Str(status)) && (category == "all" || Get(x, "category") == Str(category))
    ensures status == "all" && category == "all" ==> r == items
  {
    var p := (x: Record) => (status == "all" || StrictEquals(Get(x, "status"), Str(status)))
                            && (category == "all" || StrictEquals(Get(x, "category"), Str(category)));
    if status == "all" && category == "all" then
      FilterKeepsAll(items, p);
      Filter(items, p)
    else Filter(items, p)
  }

  /** The category of every entry, `undefined` where it has none. */
  function CategoryValues(items: seq<Record>): (r: seq<Value>)
    ensures |r| == |items|
    ensures forall i | 0 <= i < |items| :: r[i] == Get(items[i], "category")
  {
    seq(|items|, i requires 0 <= i < |items| => Get(items[i], "category"))
  }

  /**
   * `categories`: the set of the entries' non-empty categories, in the
   * order they first appear.  Each such category is offered once, and
   * nothing else is.
   */
  method Categories(items: seq<Record>) returns (cats: seq<Value>)
    ensures cats == Dedup(Filter(CategoryValues(items), Truthy))
    ensures forall c :: c in cats <==> exists i | 0 <= i < |items| :: Truthy(Get(items[i], "category")) && c == Get(items[i], "category")
    ensures forall i, j | 0 <= i < j < |cats| :: cats[i] != cats[j]
  {
    cats := [];
    for i := 0 to |items|
      invariant cats == Dedup(Filter(CategoryValues(items[..i]), Truthy))
    {
      var c := Get(items[i], "category");
      var before := CategoryValues(items[..i]);
      assert CategoryValues(items[..i + 1]) == before + [c];
      FilterSnoc(before, c, Truthy);
      if Truthy(c) {
        DedupSnoc(Filter(before, Truthy), c);
        if c !in cats {
          cats := cats + [c];
        }
      } else {
        assert Filter(before + [c], Truthy) == Filter(before, Truthy);
      }
    }
    assert items[..|items|] == items;
    OfferedCategories(items);
  }

  /** The offered categories are exactly the entries' truthy categories. */
  lemma OfferedCategories(items: seq<Record>)
    ensures forall c :: c in Dedup(Filter(CategoryValues(items), Truthy)) <==>
      exists i | 0 <= i < |items| :: Truthy(Get(items[i], "category")) && c == Get(items[i], "category")
  {
    var values := CategoryValues(items);
    forall c ensures c in Dedup(Filter(values, Truthy)) <==>
      exists i | 0 <= i < |items| :: Truthy(Get(items[i], "category")) && c == Get(items[i], "category")
    {
      if c in Dedup(Filter(values, Truthy)) {
        assert c in values;
        var i :| 0 <= i < |values| && values[i] == c;
        assert Truthy(Get(items[i], "category")) && c == Get(items[i], "category");
      }
      if exists i | 0 <= i < |items| :: Truthy(Get(items[i], "category")) && c == Get(items[i], "category") {
        var i :| 0 <= i < |items| && Truthy(Get(items[i], "category")) && c == Get(items[i], "category");
        assert values[i] == c;
      }
    }
  }

  // ---------------------------------------------------------------------
  // The completion toggle

  /**
   * `handleToggleMeetingComplete(item)` as written: the meetings page's
   * toggle applied to the timeline entry, so the whole entry, its `type`
   * of `'meeting'` included, is merged into the stored meeting.
   */
  function ToggleItem(item: Record, view: MeetingsPage.NotesView): (r: MeetingsPage.Toggle)
    ensures r.action.UpdateMeeting? && r.action.patch == MeetingsPage.Toggled(item)
    ensures Get(r.action.patch, "type") == Get(item, "type")
  {
    MeetingsPage.ToggleComplete(item, view)
  }

  /**
   * As written, completing a meeting from the timeline overwrites the
   * stored meeting's own type (e.g. `'Major Donor Meeting'`) with the
   * entry kind `'meeting'`.
   */
  lemma ToggleFromTimelineClobbersType(s: Store.State, i: int, view: MeetingsPage.NotesView, freshId: Value, now: Value)
    requires 0 <= i < |s.meetings| && Get(s.meetings[i], "id").Str?
    ensures var r := Store.Reduce(s, ToggleItem(MeetingItem(s.meetings[i]), view).action, freshId, now);
      Get(r.meetings[i], "type") == Str("meeting")
  {
    var m := s.meetings[i];
    var patch := MeetingsPage.Toggled(MeetingItem(m));
    Store.UpdateMeetingStep(s, patch, freshId, now);
    assert Get(patch, "id") == Get(m, "id");
  }

  /**
   * The toggle as intended: the store receives only the id and the new
   * status; the notes window shows the toggled entry.
   */
  function ToggleItemFixed(item: Record, view: MeetingsPage.NotesView): (r: MeetingsPage.Toggle)
    ensures r.action == Store.UpdateMeeting(map["id" := Get(item, "id"), "status" := MeetingsPage.NextStatus(Get(item, "status"))])
    ensures r.view == MeetingsPage.ToggleComplete(item, view).view
  {
    var patch := map["id" := Get(item, "id"), "status" := MeetingsPage.NextStatus(Get(item, "status"))];
    MeetingsPage.Toggle(Store.UpdateMeeting(patch), MeetingsPage.ToggleComplete(item, view).view)
  }

  /** `handleSaveNotes(notes)` as intended: the store receives only the id and the notes. */
  function SaveNotesFixed(view: MeetingsPage.NotesView, notes: Value): (r: Option<Store.Action>)
    ensures view.meeting.None? ==> r.None?
    ensures view.meeting.Some? ==> r == Some(Store.UpdateMeeting(map["id" := Get(view.meeting.value, "id"), "notes" := notes]))
  {
    if view.meeting.Some? then Some(Store.UpdateMeeting(map["id" := Get(view.meeting.value, "id"), "notes" := notes])) else None
  }

  /** A patch of one field under a stored meeting's id sets that field of that meeting and nothing else. */
  lemma PatchMeeting(s: Store.State, i: int, key: string, v: Value, freshId: Value, now: Value)
    requires 0 <= i < |s.meetings| && Get(s.meetings[i], "id").Str? && key != "id"
    ensures var r := Store.Reduce(s, Store.UpdateMeeting(map["id" := Get(s.meetings[i], "id"), key := v]), freshId, now);
      |r.meetings| == |s.meetings| && r.meetings[i] == s.meetings[i][key := v]
  {
    var m := s.meetings[i];
    var patch := map["id" := Get(m, "id"), key := v];
    Store.UpdateMeetingStep(s, patch, freshId, now);
    assert m + patch == m[key := v];
  }

  /**
   * With the intended toggle, completing a meeting from the timeline and
   * saving its notes leaves the stored meeting exactly as the meetings page
   * leaves it: status `'completed'`, the new notes, and its type and every
   * other field unchanged.
   */
  lemma CompleteFromTimelineKeepsMeeting(s: Store.State, i: int, view: MeetingsPage.NotesView, notes: Value, freshId: Value, now: Value)
    requires 0 <= i < |s.meetings| && Get(s.meetings[i], "id").Str?
    requires Get(s.meetings[i], "status") != Str("completed")
    ensures var t := ToggleItemFixed(MeetingItem(s.meetings[i]), view);
      var once := Store.Reduce(s, t.action, freshId, now);
      var twice := Store.Dispatch(once, SaveNotesFixed(t.view, notes), freshId, now);
      twice.meetings[i] == s.meetings[i]["status" := Str("completed")]["notes" := notes]
      && Get(twice.meetings[i], "type") == Get(s.meetings[i], "type")
  {
    var m := s.meetings[i];
    var item := MeetingItem(m);
    ItemFields(m, "meeting", "date");
    var t := ToggleItemFixed(item, view);
    assert t.action == Store.UpdateMeeting(map["id" := Get(m, "id"), "status" := Str("completed")]);
    PatchMeeting(s, i, "status", Str("completed"), freshId, now);
    var once := Store.Reduce(s, t.action, freshId, now);
    assert t.view.meeting == Some(MeetingsPage.Toggled(item));
    assert Get(MeetingsPage.Toggled(item), "id") == Get(once.meetings[i], "id");
    assert SaveNotesFixed(t.view, notes) == Some(Store.UpdateMeeting(map["id" := Get(once.meetings[i], "id"), "notes" := notes]));
    PatchMeeting(once, i, "notes", notes, freshId, now);
  }
}
