/**
 * The domain store of the trip dashboard: the state record with its seven
 * entity lists, the current trip, the loading flag and the error, and the
 * reducer that every page reaches through the store's helper functions
 * (`addTrip`, `updateTask`, `deletePledge`, ... each dispatches exactly one
 * of the actions below).
 *
 * The random identifier generator and the clock are not part of the model:
 * every transition receives the identifier and the creation time it would
 * stamp on a new record (`freshId`, `now`), and only the add actions use them.
 */
module Store {
  import opened Values

  datatype State = State(
    currentTrip: Option<Record>,
    trips: seq<Record>,
    tasks: seq<Record>,
    meetings: seq<Record>,
    documents: seq<Record>,
    expenses: seq<Record>,
    pledges: seq<Record>,
    communications: seq<Record>,
    loading: bool,
    error: Value)

  /** The state before anything is loaded: no trip selected, all lists empty. */
  const Initial := State(None, [], [], [], [], [], [], [], false, Null)

  /** The seven entity lists. */
  datatype Kind = Trips | Tasks | Meetings | Documents | Expenses | Pledges | Communications

  function Collection(s: State, k: Kind): seq<Record>
  {
    match k
    case Trips => s.trips
    case Tasks => s.tasks
    case Meetings => s.meetings
    case Documents => s.documents
    case Expenses => s.expenses
    case Pledges => s.pledges
    case Communications => s.communications
  }

  /**
   * The payload of `LOAD_DATA`: the parsed persisted state, in which each
   * key may be present (`Some`) or absent (`None`).  A persisted `loading`
   * is never read, since the reducer forces it to false.
   */
  datatype Snapshot = Snapshot(
    currentTrip: Option<Option<Record>>,
    trips: Option<seq<Record>>,
    tasks: Option<seq<Record>>,
    meetings: Option<seq<Record>>,
    documents: Option<seq<Record>>,
    expenses: Option<seq<Record>>,
    pledges: Option<seq<Record>>,
    communications: Option<seq<Record>>,
    error: Option<Value>)

  datatype Action =
    | SetLoading(flag: bool)
    | SetError(message: Value)
    | SetCurrentTrip(trip: Option<Record>)
    | AddTrip(data: Record)
    | UpdateTrip(patch: Record)
    | DeleteTrip(id: Value)
    | AddTask(data: Record)
    | UpdateTask(patch: Record)
    | DeleteTask(id: Value)
    | AddMeeting(data: Record)
    | UpdateMeeting(patch: Record)
    | DeleteMeeting(id: Value)
    | AddDocument(data: Record)
    | AddExpense(data: Record)
    | AddPledge(data: Record)
    | UpdatePledge(patch: Record)
    | DeletePledge(id: Value)
    | AddCommunication(data: Record)
    | LoadData(snapshot: Snapshot)
    | Unknown(tag: string)
  {
    predicate IsAdd() {
      AddTrip? || AddTask? || AddMeeting? || AddDocument? || AddExpense? || AddPledge? || AddCommunication?
    }

    predicate IsUpdate() {
      UpdateTrip? || UpdateTask? || UpdateMeeting? || UpdatePledge?
    }

    predicate IsDelete() {
      DeleteTrip? || DeleteTask? || DeleteMeeting? || DeletePledge?
    }

    /** The one list an add, update or delete action works on. */
    function Target(): Kind
      requires IsAdd() || IsUpdate() || IsDelete()
    {
      if AddTrip? || UpdateTrip? || DeleteTrip? then Trips
      else if AddTask? || UpdateTask? || DeleteTask? then Tasks
      else if AddMeeting? || UpdateMeeting? || DeleteMeeting? then Meetings
      else if AddDocument? then Documents
      else if AddExpense? then Expenses
      else if AddPledge? || UpdatePledge? || DeletePledge? then Pledges
      else Communications
    }

    /** Whether this action may change list `k`. */
    predicate Touches(k: Kind) {
      ((IsAdd() || IsUpdate() || IsDelete()) && Target() == k)
      || (LoadData? && LoadedKey(snapshot, k))
    }
  }

  /** The list a `LOAD_DATA` payload carries for `k`, if it carries one. */
  function Supplied(p: Snapshot, k: Kind): Option<seq<Record>>
  {
    match k
    case Trips => p.trips
    case Tasks => p.tasks
    case Meetings => p.meetings
    case Documents => p.documents
    case Expenses => p.expenses
    case Pledges => p.pledges
    case Communications => p.communications
  }

  predicate LoadedKey(p: Snapshot, k: Kind)
  {
    Supplied(p, k).Some?
  }

  /** `currentTrip?.id`: undefined when no trip is selected. */
  function SelectedId(current: Option<Record>): Value
  {
    if current.Some? then Get(current.value, "id") else Undefined
  }

  /**
   * `{ ...data, id, createdAt }`: the record an add action appends.  The
   * store's identifier and timestamp override whatever the payload carried;
   * every other payload field is kept.
   */
  function Stamp(data: Record, id: Value, now: Value): (r: Record)
    ensures r.Keys == data.Keys + {"id", "createdAt"}
    ensures Get(r, "id") == id && Get(r, "createdAt") == now
    ensures forall k | k in data && k != "id" && k != "createdAt" :: r[k] == data[k]
  {
    data["id" := id]["createdAt" := now]
  }

  /**
   * `list.map(x => x.id === patch.id ? { ...x, ...patch } : x)`: a shallow
   * merge into every record whose id strictly equals the patch's id.
   */
  function MergeById(list: seq<Record>, patch: Record): (r: seq<Record>)
    ensures |r| == |list|
    ensures forall i | 0 <= i < |list| && StrictEquals(Get(list[i], "id"), Get(patch, "id")) ::
      r[i].Keys == list[i].Keys + patch.Keys
      && (forall k | k in patch :: r[i][k] == patch[k])
      && (forall k | k in list[i] && k !in patch :: r[i][k] == list[i][k])
    ensures forall i | 0 <= i < |list| && !StrictEquals(Get(list[i], "id"), Get(patch, "id")) :: r[i] == list[i]
  {
    seq(|list|, i requires 0 <= i < |list| =>
      if StrictEquals(Get(list[i], "id"), Get(patch, "id")) then list[i] + patch else list[i])
  }

  /** `list.filter(x => x.id !== id)` */
  function RemoveById(list: seq<Record>, id: Value): (r: seq<Record>)
  {
    Filter(list, (x: Record) => !StrictEquals(Get(x, "id"), id))
  }

  /** The tail of `UPDATE_TRIP`: the selected trip is merged with the patch exactly when its id matches. */
  function MergeSelected(current: Option<Record>, patch: Record): Option<Record>
  {
    if StrictEquals(SelectedId(current), Get(patch, "id")) then
      // `{ ...null, ...patch }` is just the patch
      Some((if current.Some? then current.value else map[]) + patch)
    else current
  }

  function Or<T>(o: Option<T>, d: T): T
  {
    if o.Some? then o.value else d
  }

  /** The state with list `k` replaced by `c`. */
  function WithCollection(s: State, k: Kind, c: seq<Record>): (r: State)
    ensures Collection(r, k) == c
    ensures forall k' | k' != k :: Collection(r, k') == Collection(s, k')
    ensures r.currentTrip == s.currentTrip && r.loading == s.loading && r.error == s.error
  {
    match k
    case Trips => s.(trips := c)
    case Tasks => s.(tasks := c)
    case Meetings => s.(meetings := c)
    case Documents => s.(documents := c)
    case Expenses => s.(expenses := c)
    case Pledges => s.(pledges := c)
    case Communications => s.(communications := c)
  }

  /**
   * `tripReducer(state, action)`, with the identifier and timestamp an add
   * would use.  The fifteen add, update and delete cases differ only in the
   * list they work on, so they are written once over `a.Target()`:
   *  - ADD_*: append `{ ...payload, id, createdAt }`; ADD_TRIP also selects it;
   *  - UPDATE_*: shallow-merge the payload into the records with its id;
   *    UPDATE_TRIP merges it into the selected trip too when the ids match;
   *  - DELETE_*: drop the records with that id; DELETE_TRIP clears the
   *    selection when the selected trip had that id.
   */
  function Reduce(s: State, a: Action, freshId: Value, now: Value): (r: State)
    ensures a.SetError? || a.LoadData? ==> !r.loading
    ensures !a.SetLoading? && !a.SetError? && !a.LoadData? ==> r.loading == s.loading && r.error == s.error
    ensures a.Unknown? ==> r == s
  {
    if a.SetLoading? then s.(loading := a.flag)
    else if a.SetError? then s.(error := a.message, loading := false)
    else if a.SetCurrentTrip? then s.(currentTrip := a.trip)
    else if a.IsAdd() then
      var added := Stamp(a.data, freshId, now);
      WithCollection(s, a.Target(), Collection(s, a.Target()) + [added])
        .(currentTrip := if a.AddTrip? then Some(added) else s.currentTrip)
    else if a.IsUpdate() then
      WithCollection(s, a.Target(), MergeById(Collection(s, a.Target()), a.patch))
        .(currentTrip := if a.UpdateTrip? then MergeSelected(s.currentTrip, a.patch) else s.currentTrip)
    else if a.IsDelete() then
      WithCollection(s, a.Target(), RemoveById(Collection(s, a.Target()), a.id))
        .(currentTrip := if a.DeleteTrip? && StrictEquals(SelectedId(s.currentTrip), a.id) then None
                         else s.currentTrip)
    else if a.LoadData? then
      var p := a.snapshot;
      State(Or(p.currentTrip, s.currentTrip), Or(p.trips, s.trips), Or(p.tasks, s.tasks),
            Or(p.meetings, s.meetings), Or(p.documents, s.documents), Or(p.expenses, s.expenses),
            Or(p.pledges, s.pledges), Or(p.communications, s.communications), false, Or(p.error, s.error))
    else s
  }

  /** A transition changes only the lists its action touches. */
  lemma ReduceFrame(s: State, a: Action, freshId: Value, now: Value, k: Kind)
    requires !a.Touches(k)
    ensures Collection(Reduce(s, a, freshId, now), k) == Collection(s, k)
  {
  }

  /** Only trip actions, `SET_CURRENT_TRIP` and `LOAD_DATA` change the selected trip. */
  lemma SelectionFrame(s: State, a: Action, freshId: Value, now: Value)
    requires !a.SetCurrentTrip? && !a.LoadData?
    requires !((a.IsAdd() || a.IsUpdate() || a.IsDelete()) && a.Target() == Trips)
    ensures Reduce(s, a, freshId, now).currentTrip == s.currentTrip
  {
  }

  /** A page handler either dispatches one action or none. */
  function Dispatch(s: State, a: Option<Action>, freshId: Value, now: Value): State
  {
    if a.Some? then Reduce(s, a.value, freshId, now) else s
  }

  // ---------------------------------------------------------------------
  // Add

  /** Every add action appends exactly one stamped record to its own list and leaves every other list alone. */
  lemma AddAppendsOne(s: State, a: Action, freshId: Value, now: Value)
    requires a.IsAdd()
    ensures Collection(Reduce(s, a, freshId, now), a.Target())
         == Collection(s, a.Target()) + [Stamp(a.data, freshId, now)]
    ensures forall k | k != a.Target() :: Collection(Reduce(s, a, freshId, now), k) == Collection(s, k)
    ensures !a.AddTrip? ==> Reduce(s, a, freshId, now).currentTrip == s.currentTrip
  {
  }

  /** Adding a trip selects the trip just created. */
  lemma AddTripSelectsIt(s: State, data: Record, freshId: Value, now: Value)
    ensures var r := Reduce(s, AddTrip(data), freshId, now);
      r.currentTrip == Some(r.trips[|r.trips| - 1]) && Get(r.currentTrip.value, "id") == freshId
  {
  }

  /** Adding a task, as one state: only the task list changes. */
  lemma AddTaskStep(s: State, data: Record, freshId: Value, now: Value)
    ensures Reduce(s, AddTask(data), freshId, now) == s.(tasks := s.tasks + [Stamp(data, freshId, now)])
  {
  }

  /**
   * A run of task adds, one step: when the next add stamps the i-th of the
   * tasks a run appends, the task list grows from its first i to its first
   * i + 1.
   */
  lemma AddTaskExtends(base: State, added: seq<Record>, i: nat, data: Record, freshId: Value, now: Value)
    requires i < |added| && added[i] == Stamp(data, freshId, now)
    ensures Reduce(base.(tasks := base.tasks + added[..i]), AddTask(data), freshId, now)
         == base.(tasks := base.tasks + added[..i + 1])
  {
    AddTaskStep(base.(tasks := base.tasks + added[..i]), data, freshId, now);
    assert base.tasks + added[..i + 1] == (base.tasks + added[..i]) + [added[i]];
  }

  /** Adding a trip, as one state: the trip list grows and the new trip is selected. */
  lemma AddTripStep(s: State, data: Record, freshId: Value, now: Value)
    ensures Reduce(s, AddTrip(data), freshId, now)
         == s.(trips := s.trips + [Stamp(data, freshId, now)], currentTrip := Some(Stamp(data, freshId, now)))
  {
  }

  /** Adding a document, as one state: only the document list changes. */
  lemma AddDocumentStep(s: State, data: Record, freshId: Value, now: Value)
    ensures Reduce(s, AddDocument(data), freshId, now) == s.(documents := s.documents + [Stamp(data, freshId, now)])
  {
  }

  /** A run of document adds, one step, as `AddTaskExtends` for tasks. */
  lemma AddDocumentExtends(base: State, added: seq<Record>, i: nat, data: Record, freshId: Value, now: Value)
    requires i < |added| && added[i] == Stamp(data, freshId, now)
    ensures Reduce(base.(documents := base.documents + added[..i]), AddDocument(data), freshId, now)
         == base.(documents := base.documents + added[..i + 1])
  {
    AddDocumentStep(base.(documents := base.documents + added[..i]), data, freshId, now);
    assert base.documents + added[..i + 1] == (base.documents + added[..i]) + [added[i]];
  }

  /** Adding a communication, as one state: only the communication list changes. */
  lemma AddCommunicationStep(s: State, data: Record, freshId: Value, now: Value)
    ensures Reduce(s, AddCommunication(data), freshId, now)
         == s.(communications := s.communications + [Stamp(data, freshId, now)])
  {
  }

  /** Adding an expense, as one state: only the expense list changes. */
  lemma AddExpenseStep(s: State, data: Record, freshId: Value, now: Value)
    ensures Reduce(s, AddExpense(data), freshId, now) == s.(expenses := s.expenses + [Stamp(data, freshId, now)])
  {
  }

  /** Adding a pledge, as one state: only the pledge list changes. */
  lemma AddPledgeStep(s: State, data: Record, freshId: Value, now: Value)
    ensures Reduce(s, AddPledge(data), freshId, now) == s.(pledges := s.pledges + [Stamp(data, freshId, now)])
  {
  }

  // ---------------------------------------------------------------------
  // Update

  /** Updating a meeting, as one state: only the meeting list changes, by the merge. */
  lemma UpdateMeetingStep(s: State, patch: Record, freshId: Value, now: Value)
    ensures Reduce(s, UpdateMeeting(patch), freshId, now) == s.(meetings := MergeById(s.meetings, patch))
  {
  }

  /** Updating a task, as one state: only the task list changes, by the merge. */
  lemma UpdateTaskStep(s: State, patch: Record, freshId: Value, now: Value)
    ensures Reduce(s, UpdateTask(patch), freshId, now) == s.(tasks := MergeById(s.tasks, patch))
  {
  }

  /** An update keeps every list's length and order; records whose id does not match are untouched. */
  lemma UpdateIsTargetedMerge(s: State, a: Action, freshId: Value, now: Value, i: int)
    requires a.IsUpdate()
    requires 0 <= i < |Collection(s, a.Target())|
    ensures var before := Collection(s, a.Target());
      var after := Collection(Reduce(s, a, freshId, now), a.Target());
      |after| == |before|
      && (StrictEquals(Get(before[i], "id"), Get(a.patch, "id")) ==>
            (forall k | k in a.patch :: after[i][k] == a.patch[k])
            && (forall k | k in before[i] && k !in a.patch :: after[i][k] == before[i][k]))
      && (!StrictEquals(Get(before[i], "id"), Get(a.patch, "id")) ==> after[i] == before[i])
  {
  }

  /** An update whose id matches no record leaves the list as it was. */
  lemma UpdateUnknownIdIsNoop(s: State, a: Action, freshId: Value, now: Value)
    requires a.IsUpdate()
    requires forall r | r in Collection(s, a.Target()) :: !StrictEquals(Get(r, "id"), Get(a.patch, "id"))
    ensures Collection(Reduce(s, a, freshId, now), a.Target()) == Collection(s, a.Target())
  {
    var before := Collection(s, a.Target());
    var after := Collection(Reduce(s, a, freshId, now), a.Target());
    assert after == MergeById(before, a.patch);
    forall i | 0 <= i < |before| ensures after[i] == before[i] {
      assert before[i] in before;
    }
  }

  /** `UPDATE_TRIP` merges the patch into the selected trip exactly when their ids match. */
  lemma UpdateTripSelection(s: State, patch: Record, freshId: Value, now: Value)
    requires s.currentTrip.Some?
    ensures var r := Reduce(s, UpdateTrip(patch), freshId, now);
      (StrictEquals(Get(s.currentTrip.value, "id"), Get(patch, "id")) ==>
         r.currentTrip == Some(s.currentTrip.value + patch))
      && (!StrictEquals(Get(s.currentTrip.value, "id"), Get(patch, "id")) ==> r.currentTrip == s.currentTrip)
  {
  }

  /** Example: marking task X completed changes its status and nothing else anywhere in the store. */
  lemma UpdateTaskStatusOnly(s: State, x: string, i: int)
    requires 0 <= i < |s.tasks| && Get(s.tasks[i], "id") == Str(x)
    ensures var r := Reduce(s, UpdateTask(map["id" := Str(x), "status" := Str("completed")]), Null, Null);
      |r.tasks| == |s.tasks|
      && r.tasks[i] == s.tasks[i]["status" := Str("completed")]
      && (forall j | 0 <= j < |s.tasks| && j != i && Get(s.tasks[j], "id") != Str(x) :: r.tasks[j] == s.tasks[j])
      && r.trips == s.trips && r.meetings == s.meetings && r.pledges == s.pledges && r.currentTrip == s.currentTrip
  {
    var patch := map["id" := Str(x), "status" := Str("completed")];
    var r := Reduce(s, UpdateTask(patch), Null, Null);
    assert r.tasks[i] == s.tasks[i] + patch;
    assert "id" in s.tasks[i] && s.tasks[i]["id"] == Str(x);
    assert s.tasks[i] + patch == s.tasks[i]["status" := Str("completed")];
  }

  // ---------------------------------------------------------------------
  // Delete

  /** `RemoveById` keeps exactly the records with another id, in their order. */
  lemma {:induction false} RemoveByIdKeepsOthers(list: seq<Record>, id: Value)
    ensures forall x :: x in RemoveById(list, id) <==> x in list && !StrictEquals(Get(x, "id"), id)
    ensures |RemoveById(list, id)| <= |list|
    ensures (forall x | x in list :: !StrictEquals(Get(x, "id"), id)) ==> RemoveById(list, id) == list
  {
    var p := (x: Record) => !StrictEquals(Get(x, "id"), id);
    if forall x | x in list :: !StrictEquals(Get(x, "id"), id) {
      FilterKeepsAll(list, p);
    }
  }

  /** One delete step on the list it targets. */
  lemma DeleteStep(s: State, a: Action, freshId: Value, now: Value)
    requires a.IsDelete()
    ensures Collection(Reduce(s, a, freshId, now), a.Target()) == RemoveById(Collection(s, a.Target()), a.id)
  {
  }

  /** Deleting twice is deleting once. */
  lemma DeleteIsIdempotent(s: State, a: Action, freshId: Value, now: Value)
    requires a.IsDelete()
    ensures var once := Reduce(s, a, freshId, now);
      Collection(Reduce(once, a, freshId, now), a.Target()) == Collection(once, a.Target())
  {
    var once := Reduce(s, a, freshId, now);
    DeleteStep(s, a, freshId, now);
    DeleteStep(once, a, freshId, now);
    FilterIdempotent(Collection(s, a.Target()), (x: Record) => !StrictEquals(Get(x, "id"), a.id));
  }

  /** A delete removes exactly the records with the given id and keeps the others in order. */
  lemma DeleteRemovesExactly(s: State, a: Action, freshId: Value, now: Value)
    requires a.IsDelete()
    ensures var after := Collection(Reduce(s, a, freshId, now), a.Target());
      after == RemoveById(Collection(s, a.Target()), a.id)
      && (forall x :: x in after <==> x in Collection(s, a.Target()) && !StrictEquals(Get(x, "id"), a.id))
  {
    DeleteStep(s, a, freshId, now);
    RemoveByIdKeepsOthers(Collection(s, a.Target()), a.id);
  }

  /**
   * `DELETE_TRIP` clears the selection exactly when the selected trip had
   * that id, and it does not cascade: tasks, meetings and every other list
   * are untouched.
   */
  lemma DeleteTripSelectionNoCascade(s: State, id: Value, freshId: Value, now: Value)
    ensures var r := Reduce(s, DeleteTrip(id), freshId, now);
      (r.currentTrip == None <==> s.currentTrip == None || StrictEquals(Get(s.currentTrip.value, "id"), id))
      && (r.currentTrip != None ==> r.currentTrip == s.currentTrip)
      && r.tasks == s.tasks && r.meetings == s.meetings && r.documents == s.documents
      && r.expenses == s.expenses && r.pledges == s.pledges && r.communications == s.communications
  {
  }

  // ---------------------------------------------------------------------
  // Identity

  function Ids(list: seq<Record>): seq<Value>
  {
    seq(|list|, i requires 0 <= i < |list| => Get(list[i], "id"))
  }

  /** No two records of the list share an id. */
  predicate UniqueIds(list: seq<Record>)
  {
    forall i, j | 0 <= i < j < |list| :: Get(list[i], "id") != Get(list[j], "id")
  }

  predicate AllUnique(s: State)
  {
    forall k :: UniqueIds(Collection(s, k))
  }

  /** Every id in the store comes from `pool`. */
  predicate IdsWithin(s: State, pool: set<Value>)
  {
    forall k, r | r in Collection(s, k) :: Get(r, "id") in pool
  }

  predicate IdsIn(list: seq<Record>, pool: set<Value>)
  {
    forall x | x in list :: Get(x, "id") in pool
  }

  lemma AppendKeepsUnique(list: seq<Record>, added: Record, pool: set<Value>)
    requires UniqueIds(list) && IdsIn(list, pool) && Get(added, "id") !in pool
    ensures UniqueIds(list + [added]) && IdsIn(list + [added], pool + {Get(added, "id")})
  {
    var l := list + [added];
    forall i, j | 0 <= i < j < |l| ensures Get(l[i], "id") != Get(l[j], "id") {
      if j == |list| {
        assert l[i] in list;
      } else {
        assert l[i] == list[i] && l[j] == list[j];
      }
    }
  }

  lemma MergeByIdKeepsUnique(list: seq<Record>, patch: Record, pool: set<Value>)
    requires UniqueIds(list) && IdsIn(list, pool)
    ensures UniqueIds(MergeById(list, patch)) && IdsIn(MergeById(list, patch), pool)
  {
    var r := MergeById(list, patch);
    assert forall i | 0 <= i < |list| :: Get(r[i], "id") == Get(list[i], "id") by {
      forall i | 0 <= i < |list| ensures Get(r[i], "id") == Get(list[i], "id") {
        if StrictEquals(Get(list[i], "id"), Get(patch, "id")) {
          assert r[i] == list[i] + patch;
        }
      }
    }
    forall x | x in r ensures Get(x, "id") in pool {
      var i :| 0 <= i < |r| && r[i] == x;
      assert list[i] in list;
    }
  }

  lemma {:induction false} RemoveByIdKeepsUnique(list: seq<Record>, id: Value, pool: set<Value>)
    requires UniqueIds(list) && IdsIn(list, pool)
    ensures UniqueIds(RemoveById(list, id)) && IdsIn(RemoveById(list, id), pool)
  {
    RemoveByIdKeepsOthers(list, id);
    if list != [] {
      var p := (x: Record) => !StrictEquals(Get(x, "id"), id);
      assert UniqueIds(list[1..]);
      assert IdsIn(list[1..], pool) by {
        forall x | x in list[1..] ensures Get(x, "id") in pool { assert x in list; }
      }
      RemoveByIdKeepsUnique(list[1..], id, pool);
      var rest := RemoveById(list[1..], id);
      assert RemoveById(list, id) == (if p(list[0]) then [list[0]] else []) + rest;
      forall x | x in rest ensures Get(x, "id") != Get(list[0], "id") {
        RemoveByIdKeepsOthers(list[1..], id);
        var j :| 0 <= j < |list[1..]| && list[1..][j] == x;
        assert list[j + 1] == x;
      }
    }
  }

  /**
   * The store keeps ids pairwise distinct in every list, provided the id
   * generator returns an id no record carries yet: updates never change an
   * id, deletes only drop records.
   */
  lemma StepKeepsIdsUnique(s: State, a: Action, freshId: Value, now: Value, pool: set<Value>)
    requires AllUnique(s) && IdsWithin(s, pool)
    requires !a.LoadData?
    requires a.IsAdd() ==> freshId !in pool
    ensures AllUnique(Reduce(s, a, freshId, now))
    ensures IdsWithin(Reduce(s, a, freshId, now), pool + {freshId})
  {
    var r := Reduce(s, a, freshId, now);
    forall k ensures UniqueIds(Collection(r, k)) && IdsIn(Collection(r, k), pool + {freshId}) {
      var before := Collection(s, k);
      assert UniqueIds(before);
      assert IdsIn(before, pool);
      if !a.Touches(k) {
        ReduceFrame(s, a, freshId, now, k);
      } else if a.IsAdd() {
        AppendKeepsUnique(before, Stamp(a.data, freshId, now), pool);
      } else if a.IsUpdate() {
        MergeByIdKeepsUnique(before, a.patch, pool);
      } else {
        RemoveByIdKeepsUnique(before, a.id, pool);
      }
    }
  }

  /** One store step: an action with the id the generator supplied for it. */
  datatype Step = Step(action: Action, freshId: Value, now: Value)

  function Run(s: State, steps: seq<Step>): State
    decreases |steps|
  {
    if steps == [] then s
    else Run(Reduce(s, steps[0].action, steps[0].freshId, steps[0].now), steps[1..])
  }

  /**
   * Ids stay unique over any run of actions (hydration aside) when the
   * generator never repeats itself and never returns an id already in use.
   */
  lemma {:induction false} RunKeepsIdsUnique(s: State, steps: seq<Step>, pool: set<Value>)
    decreases |steps|
    requires AllUnique(s) && IdsWithin(s, pool)
    requires forall i | 0 <= i < |steps| :: !steps[i].action.LoadData?
    requires forall i | 0 <= i < |steps| :: steps[i].freshId !in pool
    requires forall i, j | 0 <= i < j < |steps| :: steps[i].freshId != steps[j].freshId
    ensures AllUnique(Run(s, steps))
  {
    if steps != [] {
      var st := steps[0];
      StepKeepsIdsUnique(s, st.action, st.freshId, st.now, pool);
      var s' := Reduce(s, st.action, st.freshId, st.now);
      var pool' := pool + {st.freshId};
      forall i | 0 <= i < |steps[1..]| ensures steps[1..][i].freshId !in pool' {
        assert steps[1..][i] == steps[i + 1];
      }
      RunKeepsIdsUnique(s', steps[1..], pool');
    }
  }

  // ---------------------------------------------------------------------
  // Hydration

  /** What is written under the storage key after every transition: every key of the state. */
  function Persisted(s: State): Snapshot
  {
    Snapshot(Some(s.currentTrip), Some(s.trips), Some(s.tasks), Some(s.meetings), Some(s.documents),
             Some(s.expenses), Some(s.pledges), Some(s.communications), Some(s.error))
  }

  /**
   * The provider's start-up: absent or unparsable stored data (`None`) keeps
   * the initial state, anything else is dispatched as `LOAD_DATA`.
   */
  function Hydrate(stored: Option<Snapshot>): (r: State)
    ensures stored.None? ==> r == Initial
    ensures !r.loading
  {
    if stored.Some? then Reduce(Initial, LoadData(stored.value), Null, Null) else Initial
  }

  /** Saving a state and hydrating from it gives the state back, with `loading` cleared. */
  lemma PersistRoundTrip(s: State)
    ensures Hydrate(Some(Persisted(s))) == s.(loading := false)
  {
  }

  /** `LOAD_DATA` overwrites only the keys its payload carries. */
  lemma LoadDataOverwritesSuppliedKeys(s: State, p: Snapshot, freshId: Value, now: Value)
    ensures var r := Reduce(s, LoadData(p), freshId, now);
      (forall k | LoadedKey(p, k) :: Collection(r, k) == Supplied(p, k).value)
      && (forall k | !LoadedKey(p, k) :: Collection(r, k) == Collection(s, k))
      && (p.currentTrip.Some? ==> r.currentTrip == p.currentTrip.value)
      && (p.currentTrip.None? ==> r.currentTrip == s.currentTrip)
      && (p.error.Some? ==> r.error == p.error.value)
      && (p.error.None? ==> r.error == s.error)
      && !r.loading
  {
  }

  // ---------------------------------------------------------------------
  // Scenario

  /**
   * Add a trip, add a task for it, complete the task, delete the trip: the
   * trip list is empty and nothing is selected, but the task is still there
   * with its trip id, completed.
   */
  lemma Lifecycle(trip: Record, task: Record, tripId: Value, taskId: Value, t1: Value, t2: Value,
                  s1: State, s2: State, s3: State, s4: State)
    requires tripId == Str("trip-1") && taskId == Str("task-1")
    requires Get(task, "tripId") == tripId
    requires s1 == Reduce(Initial, AddTrip(trip), tripId, t1)
    requires s2 == Reduce(s1, AddTask(task), taskId, t2)
    requires s3 == Reduce(s2, UpdateTask(map["id" := taskId, "status" := Str("completed")]), Null, Null)
    requires s4 == Reduce(s3, DeleteTrip(tripId), Null, Null)
    ensures |s1.trips| == 1 && s1.currentTrip == Some(s1.trips[0]) && Get(s1.trips[0], "id") == tripId
    ensures |s3.tasks| == 1 && Get(s3.tasks[0], "status") == Str("completed")
    ensures s4.trips == [] && s4.currentTrip == None
    ensures |s4.tasks| == 1 && Get(s4.tasks[0], "tripId") == tripId && Get(s4.tasks[0], "id") == taskId
  {
    var stampedTrip := Stamp(trip, tripId, t1);
    assert s1.trips == [stampedTrip] && s1.currentTrip == Some(stampedTrip) by {
      AddAppendsOne(Initial, AddTrip(trip), tripId, t1);
    }
    var stampedTask := Stamp(task, taskId, t2);
    assert s2.tasks == [stampedTask] && s2.trips == s1.trips && s2.currentTrip == s1.currentTrip by {
      AddAppendsOne(s1, AddTask(task), taskId, t2);
    }
    var done := stampedTask["status" := Str("completed")];
    assert s3.tasks == [done] && s3.trips == s1.trips && s3.currentTrip == s1.currentTrip by {
      UpdateTaskStatusOnly(s2, "task-1", 0);
    }
    assert Get(done, "tripId") == tripId && Get(done, "id") == taskId;
    assert s4.tasks == s3.tasks && s4.currentTrip == None by {
      DeleteTripSelectionNoCascade(s3, tripId, Null, Null);
    }
    assert s4.trips == [] by {
      DeleteRemovesExactly(s3, DeleteTrip(tripId), Null, Null);
      assert s4.trips == RemoveById([stampedTrip], tripId);
      assert StrictEquals(Get(stampedTrip, "id"), tripId);
      assert [stampedTrip][1..] == [];
    }
  }
}
