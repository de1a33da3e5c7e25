/**
 * The trip planner's working checklist: the per-period editors (toggle,
 * add, delete, rename through a small edit state machine), the progress
 * counts, and the grouping rule that shows a period's tasks by category.
 * The master checklist it starts from is in `ChecklistDefaults`.
 */
module Checklist {
  import opened Values

  /** A task of the working checklist; `custom` marks the tasks a user added. */
  datatype Task = Task(id: string, title: string, category: Option<string>, completed: bool, custom: bool)

  datatype Period = Period(id: string, title: string, expanded: bool, tasks: seq<Task>)

  // ---------------------------------------------------------------------
  // Progress

  /** `tasks.filter(task => task.completed).length` */
  function CompletedCount(tasks: seq<Task>): (n: nat)
    ensures n <= |tasks|
    ensures n == |tasks| <==> forall j | 0 <= j < |tasks| :: tasks[j].completed
  {
    if tasks == [] then 0
    else
      var rest := CompletedCount(tasks[1..]);
      assert forall j | 1 <= j < |tasks| :: tasks[j] == tasks[1..][j - 1];
      (if tasks[0].completed then 1 else 0) + rest
  }

  lemma {:induction false} NoneCompleted(tasks: seq<Task>)
    requires forall j | 0 <= j < |tasks| :: !tasks[j].completed
    ensures CompletedCount(tasks) == 0
  {
    if tasks != [] {
      NoneCompleted(tasks[1..]);
    }
  }

  // ---------------------------------------------------------------------
  // Editing a period's tasks

  /** `toggleTaskCompletion(periodId, taskId)`: flip `completed` on that task of that period. */
  function ToggleTask(periods: seq<Period>, periodId: string, taskId: string): (r: seq<Period>)
    ensures |r| == |periods|
    ensures forall i | 0 <= i < |periods| ::
      r[i].id == periods[i].id && r[i].title == periods[i].title && r[i].expanded == periods[i].expanded
      && |r[i].tasks| == |periods[i].tasks|
      && forall j | 0 <= j < |periods[i].tasks| ::
           var before, after := periods[i].tasks[j], r[i].tasks[j];
           after == before.(completed := after.completed)
           && (after.completed != before.completed <==> periods[i].id == periodId && before.id == taskId)
  {
    seq(|periods|, i requires 0 <= i < |periods| =>
      var p := periods[i];
      if p.id == periodId then
        p.(tasks := seq(|p.tasks|, j requires 0 <= j < |p.tasks| =>
          if p.tasks[j].id == taskId then p.tasks[j].(completed := !p.tasks[j].completed) else p.tasks[j]))
      else p)
  }

  /** Toggling the same task twice restores the checklist. */
  lemma ToggleTwiceRestores(periods: seq<Period>, periodId: string, taskId: string)
    ensures ToggleTask(ToggleTask(periods, periodId, taskId), periodId, taskId) == periods
  {
    var once := ToggleTask(periods, periodId, taskId);
    var twice := ToggleTask(once, periodId, taskId);
    forall i | 0 <= i < |periods| ensures twice[i] == periods[i] {
      assert twice[i].tasks == periods[i].tasks;
    }
  }

  /** The task `addTask` appends: its id is `custom-` followed by the clock reading. */
  function CustomTask(title: string, stamp: string): Task
  {
    Task("custom-" + stamp, title, None, false, true)
  }

  /** `addTask(periodId, title)`: append a new, not completed, custom task to that period. */
  function AddTask(periods: seq<Period>, periodId: string, title: string, stamp: string): (r: seq<Period>)
    ensures |r| == |periods|
    ensures forall i | 0 <= i < |periods| && periods[i].id == periodId ::
      r[i] == periods[i].(tasks := periods[i].tasks + [CustomTask(title, stamp)])
    ensures forall i | 0 <= i < |periods| && periods[i].id != periodId :: r[i] == periods[i]
  {
    seq(|periods|, i requires 0 <= i < |periods| =>
      if periods[i].id == periodId then periods[i].(tasks := periods[i].tasks + [CustomTask(title, stamp)])
      else periods[i])
  }

  /** Adding to a period id that no period has changes nothing. */
  lemma AddToUnknownPeriod(periods: seq<Period>, periodId: string, title: string, stamp: string)
    requires forall i | 0 <= i < |periods| :: periods[i].id != periodId
    ensures AddTask(periods, periodId, title, stamp) == periods
  {
  }

  /**
   * The add-task dialog: a title that is blank once trimmed adds nothing,
   * any other title is added trimmed.
   */
  function SubmitNewTask(periods: seq<Period>, periodId: string, input: string, stamp: string): (r: seq<Period>)
    ensures Blank(input) ==> r == periods
    ensures !Blank(input) ==> r == AddTask(periods, periodId, Trim(input), stamp) && Trim(input) != ""
  {
    TrimEmptyIffBlank(input);
    if Trim(input) != "" then AddTask(periods, periodId, Trim(input), stamp) else periods
  }

  function WithoutTask(tasks: seq<Task>, taskId: string): seq<Task>
  {
    Filter(tasks, (t: Task) => t.id != taskId)
  }

  /** `deleteTask(periodId, taskId)`, once confirmed: drop that task from that period. */
  function DeleteTask(periods: seq<Period>, periodId: string, taskId: string): (r: seq<Period>)
    ensures |r| == |periods|
    ensures forall i | 0 <= i < |periods| && periods[i].id != periodId :: r[i] == periods[i]
    ensures forall i | 0 <= i < |periods| && periods[i].id == periodId ::
      r[i] == periods[i].(tasks := r[i].tasks)
      && (forall t :: t in r[i].tasks <==> t in periods[i].tasks && t.id != taskId)
  {
    seq(|periods|, i requires 0 <= i < |periods| =>
      if periods[i].id == periodId then periods[i].(tasks := WithoutTask(periods[i].tasks, taskId))
      else periods[i])
  }

  /** Deleting twice is deleting once. */
  lemma DeleteTwiceIsOnce(periods: seq<Period>, periodId: string, taskId: string)
    ensures DeleteTask(DeleteTask(periods, periodId, taskId), periodId, taskId) == DeleteTask(periods, periodId, taskId)
  {
    var once := DeleteTask(periods, periodId, taskId);
    var twice := DeleteTask(once, periodId, taskId);
    forall i | 0 <= i < |periods| ensures twice[i] == once[i] {
      if periods[i].id == periodId {
        FilterIdempotent(periods[i].tasks, (t: Task) => t.id != taskId);
      }
    }
  }

  /** Deleting the task just added takes the checklist back to where it was. */
  lemma DeleteUndoesAdd(periods: seq<Period>, periodId: string, title: string, stamp: string)
    requires forall i, j | 0 <= i < |periods| && 0 <= j < |periods[i].tasks| && periods[i].id == periodId ::
      periods[i].tasks[j].id != "custom-" + stamp
    ensures DeleteTask(AddTask(periods, periodId, title, stamp), periodId, "custom-" + stamp) == periods
  {
    var added := AddTask(periods, periodId, title, stamp);
    var r := DeleteTask(added, periodId, "custom-" + stamp);
    forall i | 0 <= i < |periods| ensures r[i] == periods[i] {
      if periods[i].id == periodId {
        var ts := periods[i].tasks;
        var p := (t: Task) => t.id != "custom-" + stamp;
        FilterConcat(ts, [CustomTask(title, stamp)], p);
        FilterKeepsAll(ts, p);
        assert Filter([CustomTask(title, stamp)], p) == [];
      }
    }
  }

  /** Rename task `taskId` of period `periodId` to `title`; no period or no task (`null`) matches nothing. */
  function RenameTask(periods: seq<Period>, periodId: Option<string>, taskId: Option<string>, title: string): (r: seq<Period>)
    ensures |r| == |periods|
    ensures forall i | 0 <= i < |periods| ::
      r[i].id == periods[i].id && r[i].title == periods[i].title && r[i].expanded == periods[i].expanded
      && |r[i].tasks| == |periods[i].tasks|
      && forall j | 0 <= j < |periods[i].tasks| ::
           var before, after := periods[i].tasks[j], r[i].tasks[j];
           if periodId == Some(periods[i].id) && taskId == Some(before.id) then after == before.(title := title)
           else after == before
  {
    seq(|periods|, i requires 0 <= i < |periods| =>
      var p := periods[i];
      if periodId == Some(p.id) then
        p.(tasks := seq(|p.tasks|, j requires 0 <= j < |p.tasks| =>
          if taskId == Some(p.tasks[j].id) then p.tasks[j].(title := title) else p.tasks[j]))
      else p)
  }

  /** Renaming when nothing is being edited changes nothing. */
  lemma RenameNothing(periods: seq<Period>, periodId: Option<string>, title: string)
    ensures RenameTask(periods, periodId, None, title) == periods
    ensures RenameTask(periods, None, Some(title), title) == periods
  {
    var a := RenameTask(periods, periodId, None, title);
    var b := RenameTask(periods, None, Some(title), title);
    forall i | 0 <= i < |periods| ensures a[i] == periods[i] && b[i] == periods[i] {
      assert a[i].tasks == periods[i].tasks;
      assert b[i].tasks == periods[i].tasks;
    }
  }

  // ---------------------------------------------------------------------
  // The edit state machine

  /** The planner's checklist together with its inline-edit state. */
  datatype Planner = Planner(periods: seq<Period>, currentPeriod: Option<string>, editTaskId: Option<string>, editTaskTitle: string)

  /** `startEditTask(periodId, taskId, title)`: put that task into edit mode with its current title. */
  function StartEditTask(pl: Planner, periodId: string, taskId: string, title: string): (r: Planner)
    ensures r.periods == pl.periods
    ensures r.currentPeriod == Some(periodId) && r.editTaskId == Some(taskId) && r.editTaskTitle == title
  {
    pl.(currentPeriod := Some(periodId), editTaskId := Some(taskId), editTaskTitle := title)
  }

  /**
   * `saveEditedTask(newTitle)`.  With a title it only records what was
   * typed.  Without one (Enter, Escape and leaving the field all commit)
   * it leaves edit mode, renaming the task to the typed title unless that
   * title is blank once trimmed.  The title is stored as typed, untrimmed.
   */
  function SaveEditedTask(pl: Planner, newTitle: Option<string>): (r: Planner)
    ensures newTitle.Some? ==> r == pl.(editTaskTitle := newTitle.value)
    ensures newTitle.None? ==> r.editTaskId == None && r.editTaskTitle == "" && r.currentPeriod == pl.currentPeriod
    ensures newTitle.None? && Blank(pl.editTaskTitle) ==> r.periods == pl.periods
    ensures newTitle.None? && !Blank(pl.editTaskTitle) ==>
      r.periods == RenameTask(pl.periods, pl.currentPeriod, pl.editTaskId, pl.editTaskTitle)
  {
    TrimEmptyIffBlank(pl.editTaskTitle);
    if newTitle.Some? then pl.(editTaskTitle := newTitle.value)
    else if Trim(pl.editTaskTitle) == "" then pl.(editTaskId := None, editTaskTitle := "")
    else
      pl.(periods := RenameTask(pl.periods, pl.currentPeriod, pl.editTaskId, pl.editTaskTitle),
          editTaskId := None, editTaskTitle := "")
  }

  /** Start editing, type a non-blank title, commit: exactly that task is renamed, and edit mode is over. */
  lemma EditRoundTrip(pl: Planner, periodId: string, taskId: string, typed: string)
    requires !Blank(typed)
    ensures var r := SaveEditedTask(SaveEditedTask(StartEditTask(pl, periodId, taskId, ""), Some(typed)), None);
      r.periods == RenameTask(pl.periods, Some(periodId), Some(taskId), typed) && r.editTaskId == None
  {
  }

  // ---------------------------------------------------------------------
  // Grouping a period's tasks by category

  /** A task's category as the grouping sees it: a missing or empty category is none. */
  function CategoryOf(t: Task): Option<string>
  {
    if t.category.Some? && t.category.value != "" then t.category else None
  }

  /** The categories of `s`, one per categorised task, in order. */
  function CategoriesOf(s: seq<Task>): seq<string>
  {
    if s == [] then []
    else CategoriesOf(s[..|s| - 1]) + (if CategoryOf(s[|s| - 1]).Some? then [CategoryOf(s[|s| - 1]).value] else [])
  }

  /** The tasks of `s` in category `k`, in order. */
  function OfCategory(s: seq<Task>, k: string): seq<Task>
  {
    if s == [] then []
    else OfCategory(s[..|s| - 1], k) + (if CategoryOf(s[|s| - 1]) == Some(k) then [s[|s| - 1]] else [])
  }

  /** The tasks of `s` without a category, in order. */
  function Uncategorized(s: seq<Task>): seq<Task>
  {
    if s == [] then []
    else Uncategorized(s[..|s| - 1]) + (if CategoryOf(s[|s| - 1]).None? then [s[|s| - 1]] else [])
  }

  /** One key of the grouped object with its tasks. */
  datatype Group = Group(key: string, tasks: seq<Task>)

  /**
   * The `grouped` object after the first loop: one group per category, in
   * order of the category's first task, holding that category's tasks.
   */
  function Buckets(s: seq<Task>): seq<Group>
  {
    var keys := Dedup(CategoriesOf(s));
    seq(|keys|, j requires 0 <= j < |keys| => Group(keys[j], OfCategory(s, keys[j])))
  }

  /** The groups with at least three tasks, in order. */
  function Large(gs: seq<Group>): seq<Group>
  {
    if gs == [] then []
    else Large(gs[..|gs| - 1]) + (if |gs[|gs| - 1].tasks| >= 3 then [gs[|gs| - 1]] else [])
  }

  /** The tasks of the groups with fewer than three tasks, group after group. */
  function SmallTasks(gs: seq<Group>): seq<Task>
  {
    if gs == [] then []
    else SmallTasks(gs[..|gs| - 1]) + (if |gs[|gs| - 1].tasks| < 3 then gs[|gs| - 1].tasks else [])
  }

  /** All the tasks of the groups, group after group. */
  function Flatten(gs: seq<Group>): seq<Task>
  {
    if gs == [] then [] else Flatten(gs[..|gs| - 1]) + gs[|gs| - 1].tasks
  }

  /** The position of `key` among the groups' keys, or -1. */
  function KeyIndex(gs: seq<Group>, key: string): (r: int)
    ensures -1 <= r < |gs|
    ensures r < 0 ==> forall j | 0 <= j < |gs| :: gs[j].key != key
    ensures r >= 0 ==> gs[r].key == key && forall j | 0 <= j < r :: gs[j].key != key
  {
    if gs == [] then -1
    else if gs[0].key == key then 0
    else
      var r := KeyIndex(gs[1..], key);
      if r < 0 then -1 else r + 1
  }

  /** `obj[key] = tasks`: an existing key keeps its place and takes the new tasks, a new key goes last. */
  function Put(gs: seq<Group>, key: string, tasks: seq<Task>): (r: seq<Group>)
    ensures KeyIndex(gs, key) < 0 ==> r == gs + [Group(key, tasks)]
    ensures KeyIndex(gs, key) >= 0 ==> r == gs[KeyIndex(gs, key) := Group(key, tasks)]
  {
    var j := KeyIndex(gs, key);
    if j < 0 then gs + [Group(key, tasks)] else gs[j := Group(key, tasks)]
  }

  /**
   * What `groupTasks` returns.  Five tasks or fewer form one `ungrouped`
   * group.  Otherwise the categories with at least three tasks keep their
   * groups, and the uncategorised tasks followed by the tasks of the
   * smaller groups are put under `ungrouped`, when there are any.
   */
  function Grouping(tasks: seq<Task>): seq<Group>
  {
    if |tasks| <= 5 then [Group("ungrouped", tasks)]
    else
      var b := Buckets(tasks);
      var rest := Uncategorized(tasks) + SmallTasks(b);
      if |rest| > 0 then Put(Large(b), "ungrouped", rest) else Large(b)
  }

  /** `groupTasks(tasks)`: the two loops are the two methods below. */
  method GroupTasks(tasks: seq<Task>) returns (groups: seq<Group>)
    ensures groups == Grouping(tasks)
    ensures |tasks| <= 5 ==> groups == [Group("ungrouped", tasks)]
  {
    if |tasks| <= 5 {
      return [Group("ungrouped", tasks)];
    }
    var grouped, ungrouped := CollectByCategory(tasks);
    var valid;
    valid, ungrouped := KeepLargeGroups(grouped, ungrouped);
    if |ungrouped| > 0 {
      valid := Put(valid, "ungrouped", ungrouped);
    }
    groups := valid;
  }

  /** The first loop of `groupTasks`: each categorised task is pushed onto its category's list, the others onto `ungrouped`. */
  method CollectByCategory(tasks: seq<Task>) returns (grouped: seq<Group>, ungrouped: seq<Task>)
    ensures grouped == Buckets(tasks) && ungrouped == Uncategorized(tasks)
  {
    grouped, ungrouped := [], [];
    var i := 0;
    while i < |tasks|
      invariant 0 <= i <= |tasks|
      invariant grouped == Buckets(tasks[..i])
      invariant ungrouped == Uncategorized(tasks[..i])
    {
      var t := tasks[i];
      if t.category.Some? && t.category.value != "" {
        var c := t.category.value;
        ghost var before := grouped;
        var j := KeyIndex(grouped, c);
        if j < 0 {
          grouped := grouped + [Group(c, [])];
          j := |grouped| - 1;
          assert grouped[j].tasks + [t] == [t];
          grouped := grouped[j := Group(c, grouped[j].tasks + [t])];
          assert grouped == before + [Group(c, [t])];
        } else {
          grouped := grouped[j := Group(c, grouped[j].tasks + [t])];
        }
        assert grouped == Buckets(tasks[..i + 1]) && ungrouped == Uncategorized(tasks[..i + 1]) by {
          assert tasks[..i + 1] == tasks[..i] + [t];
          BucketsSnoc(tasks[..i], t, c);
        }
      } else {
        ungrouped := ungrouped + [t];
        assert grouped == Buckets(tasks[..i + 1]) && ungrouped == Uncategorized(tasks[..i + 1]) by {
          assert tasks[..i + 1] == tasks[..i] + [t];
          BucketsSnocNone(tasks[..i], t);
        }
      }
      i := i + 1;
    }
    assert tasks[..|tasks|] == tasks;
  }

  /**
   * The second loop of `groupTasks`: a group of three or more is kept (its
   * key is new, so it goes last), a smaller one is appended to `ungrouped`.
   */
  method KeepLargeGroups(grouped: seq<Group>, ungrouped0: seq<Task>) returns (valid: seq<Group>, ungrouped: seq<Task>)
    ensures valid == Large(grouped) && ungrouped == ungrouped0 + SmallTasks(grouped)
  {
    valid, ungrouped := [], ungrouped0;
    var j := 0;
    while j < |grouped|
      invariant 0 <= j <= |grouped|
      invariant valid == Large(grouped[..j])
      invariant ungrouped == ungrouped0 + SmallTasks(grouped[..j])
    {
      assert grouped[..j + 1] == grouped[..j] + [grouped[j]];
      assert grouped[..j + 1][..j] == grouped[..j];
      if |grouped[j].tasks| >= 3 {
        valid := valid + [grouped[j]];
      } else {
        ungrouped := ungrouped + grouped[j].tasks;
      }
      j := j + 1;
    }
    assert grouped[..|grouped|] == grouped;
  }

  lemma CategoriesOfSnoc(s: seq<Task>, t: Task)
    ensures CategoriesOf(s + [t]) == CategoriesOf(s) + (if CategoryOf(t).Some? then [CategoryOf(t).value] else [])
    ensures Uncategorized(s + [t]) == Uncategorized(s) + (if CategoryOf(t).None? then [t] else [])
  {
    assert (s + [t])[..|s|] == s;
  }

  lemma OfCategorySnoc(s: seq<Task>, t: Task, k: string)
    ensures OfCategory(s + [t], k) == OfCategory(s, k) + (if CategoryOf(t) == Some(k) then [t] else [])
  {
    assert (s + [t])[..|s|] == s;
  }

  /** A category no task of `s` has owns no task of `s`. */
  lemma {:induction false} OfAbsentCategory(s: seq<Task>, k: string)
    requires k !in CategoriesOf(s)
    ensures OfCategory(s, k) == []
  {
    if s != [] {
      var init := s[..|s| - 1];
      assert s == init + [s[|s| - 1]];
      CategoriesOfSnoc(init, s[|s| - 1]);
      OfAbsentCategory(init, k);
    }
  }

  /** How the first loop grows `grouped` by one categorised task. */
  lemma BucketsSnoc(s: seq<Task>, t: Task, c: string)
    requires CategoryOf(t) == Some(c)
    ensures var b := Buckets(s);
      var j := KeyIndex(b, c);
      Buckets(s + [t]) == if j < 0 then b + [Group(c, [t])] else b[j := Group(c, b[j].tasks + [t])]
    ensures Uncategorized(s + [t]) == Uncategorized(s)
  {
    CategoriesOfSnoc(s, t);
    DedupSnoc(CategoriesOf(s), c);
    var b := Buckets(s);
    assert forall m | 0 <= m < |b| :: b[m].key == Dedup(CategoriesOf(s))[m];
    if c in Dedup(CategoriesOf(s)) {
      BucketsSnocSeen(s, t, c);
    } else {
      BucketsSnocNew(s, t, c);
    }
  }

  /** A task of a category already seen joins that category's group. */
  lemma BucketsSnocSeen(s: seq<Task>, t: Task, c: string)
    requires CategoryOf(t) == Some(c) && c in Dedup(CategoriesOf(s))
    ensures var b := Buckets(s);
      var j := KeyIndex(b, c);
      0 <= j && Buckets(s + [t]) == b[j := Group(c, b[j].tasks + [t])]
  {
    CategoriesOfSnoc(s, t);
    DedupSnoc(CategoriesOf(s), c);
    var keys := Dedup(CategoriesOf(s));
    var b := Buckets(s);
    assert Dedup(CategoriesOf(s + [t])) == keys;
    assert forall m | 0 <= m < |b| :: b[m].key == keys[m];
    var j := KeyIndex(b, c);
    GroupsSnocSeen(s, t, c, keys, j);
  }

  /** The groups of distinct `keys` over `s` and one more task of the `j`-th key. */
  lemma GroupsSnocSeen(s: seq<Task>, t: Task, c: string, keys: seq<string>, j: int)
    requires CategoryOf(t) == Some(c) && 0 <= j < |keys| && keys[j] == c
    requires forall m, n | 0 <= m < n < |keys| :: keys[m] != keys[n]
    ensures var earlier := seq(|keys|, m requires 0 <= m < |keys| => Group(keys[m], OfCategory(s, keys[m])));
      seq(|keys|, m requires 0 <= m < |keys| => Group(keys[m], OfCategory(s + [t], keys[m])))
      == earlier[j := Group(c, earlier[j].tasks + [t])]
  {
    var before := seq(|keys|, m requires 0 <= m < |keys| => Group(keys[m], OfCategory(s, keys[m])));
    var after := seq(|keys|, m requires 0 <= m < |keys| => Group(keys[m], OfCategory(s + [t], keys[m])));
    var want := before[j := Group(c, before[j].tasks + [t])];
    forall m | 0 <= m < |keys| ensures after[m] == want[m] {
      OfCategorySnoc(s, t, keys[m]);
      if m != j {
        assert keys[m] != keys[j];
      }
    }
  }

  /** A task of a new category opens a group of its own after the others. */
  lemma BucketsSnocNew(s: seq<Task>, t: Task, c: string)
    requires CategoryOf(t) == Some(c) && c !in Dedup(CategoriesOf(s))
    ensures var b := Buckets(s);
      KeyIndex(b, c) < 0 && Buckets(s + [t]) == b + [Group(c, [t])]
  {
    CategoriesOfSnoc(s, t);
    DedupSnoc(CategoriesOf(s), c);
    var keys := Dedup(CategoriesOf(s));
    assert Dedup(CategoriesOf(s + [t])) == keys + [c];
    assert c !in CategoriesOf(s);
    OfAbsentCategory(s, c);
    GroupsSnocNew(s, t, c, keys);
  }

  /** The groups of `keys` plus a new key `c`, over `s` and one more task of category `c`. */
  lemma GroupsSnocNew(s: seq<Task>, t: Task, c: string, keys: seq<string>)
    requires CategoryOf(t) == Some(c) && c !in keys && OfCategory(s, c) == []
    ensures var ks := keys + [c];
      seq(|ks|, j requires 0 <= j < |ks| => Group(ks[j], OfCategory(s + [t], ks[j])))
      == seq(|keys|, j requires 0 <= j < |keys| => Group(keys[j], OfCategory(s, keys[j]))) + [Group(c, [t])]
  {
    var ks := keys + [c];
    var lhs := seq(|ks|, j requires 0 <= j < |ks| => Group(ks[j], OfCategory(s + [t], ks[j])));
    var rhs := seq(|keys|, j requires 0 <= j < |keys| => Group(keys[j], OfCategory(s, keys[j]))) + [Group(c, [t])];
    forall m | 0 <= m < |keys| ensures lhs[m] == rhs[m] {
      OfCategorySnoc(s, t, keys[m]);
    }
    OfCategorySnoc(s, t, c);
    assert lhs[|keys|] == rhs[|keys|];
  }

  /** An uncategorised task leaves `grouped` alone and joins `ungrouped`. */
  lemma BucketsSnocNone(s: seq<Task>, t: Task)
    requires CategoryOf(t).None?
    ensures Buckets(s + [t]) == Buckets(s)
    ensures Uncategorized(s + [t]) == Uncategorized(s) + [t]
  {
    CategoriesOfSnoc(s, t);
    var keys := Dedup(CategoriesOf(s));
    assert CategoriesOf(s + [t]) == CategoriesOf(s);
    assert Dedup(CategoriesOf(s + [t])) == keys;
    var b, b' := Buckets(s), Buckets(s + [t]);
    assert |b'| == |b|;
    forall m | 0 <= m < |b| ensures b'[m] == b[m] {
      OfCategorySnoc(s, t, keys[m]);
    }
  }

  // ---------------------------------------------------------------------
  // What the grouping promises

  lemma {:induction false} OfCategoryMember(s: seq<Task>, k: string, x: Task)
    ensures x in OfCategory(s, k) <==> x in s && CategoryOf(x) == Some(k)
  {
    if s != [] {
      var init := s[..|s| - 1];
      assert s == init + [s[|s| - 1]];
      OfCategoryMember(init, k, x);
    }
  }

  lemma {:induction false} UncategorizedMember(s: seq<Task>, x: Task)
    ensures x in Uncategorized(s) <==> x in s && CategoryOf(x).None?
  {
    if s != [] {
      var init := s[..|s| - 1];
      assert s == init + [s[|s| - 1]];
      UncategorizedMember(init, x);
    }
  }

  lemma {:induction false} CategoriesOfMember(s: seq<Task>, k: string)
    ensures k in CategoriesOf(s) <==> exists m | 0 <= m < |s| :: CategoryOf(s[m]) == Some(k)
  {
    if s != [] {
      var init := s[..|s| - 1];
      assert s == init + [s[|s| - 1]];
      CategoriesOfMember(init, k);
      if exists m | 0 <= m < |init| :: CategoryOf(init[m]) == Some(k) {
        var m :| 0 <= m < |init| && CategoryOf(init[m]) == Some(k);
        assert s[m] == init[m];
      }
    }
  }

  lemma {:induction false} LargeMember(gs: seq<Group>, g: Group)
    ensures g in Large(gs) <==> g in gs && |g.tasks| >= 3
  {
    if gs != [] {
      var init := gs[..|gs| - 1];
      assert gs == init + [gs[|gs| - 1]];
      LargeMember(init, g);
    }
  }

  lemma {:induction false} SmallTasksEmpty(gs: seq<Group>)
    ensures |SmallTasks(gs)| == 0 <==> forall i | 0 <= i < |gs| :: |gs[i].tasks| >= 3 || |gs[i].tasks| == 0
  {
    if gs != [] {
      var init := gs[..|gs| - 1];
      assert gs == init + [gs[|gs| - 1]];
      SmallTasksEmpty(init);
      assert forall i | 0 <= i < |init| :: gs[i] == init[i];
    }
  }

  lemma PutMember(gs: seq<Group>, key: string, tasks: seq<Task>, g: Group)
    requires g in Put(gs, key, tasks)
    ensures g in gs || g == Group(key, tasks)
  {
    var j := KeyIndex(gs, key);
    if j >= 0 {
      var m :| 0 <= m < |gs| && gs[j := Group(key, tasks)][m] == g;
      if m != j { assert gs[m] == g; }
    }
  }

  /** Each group `Buckets` makes is a category of the tasks with all of that category's tasks, and so is not empty. */
  lemma BucketMember(s: seq<Task>, g: Group)
    requires g in Buckets(s)
    ensures g.tasks == OfCategory(s, g.key) && g.key in CategoriesOf(s) && |g.tasks| > 0
  {
    var keys := Dedup(CategoriesOf(s));
    var j :| 0 <= j < |keys| && Buckets(s)[j] == g;
    assert g.key == keys[j];
    CategoriesOfMember(s, g.key);
    var m :| 0 <= m < |s| && CategoryOf(s[m]) == Some(g.key);
    OfCategoryMember(s, g.key, s[m]);
    assert s[m] in g.tasks;
  }

  lemma LargeBucket(tasks: seq<Task>, g: Group)
    requires g in Large(Buckets(tasks))
    ensures |g.tasks| >= 3 && g.tasks == OfCategory(tasks, g.key) && g.key in CategoriesOf(tasks)
  {
    LargeMember(Buckets(tasks), g);
    BucketMember(tasks, g);
  }

  lemma GroupingMember(tasks: seq<Task>, g: Group)
    requires |tasks| > 5 && g in Grouping(tasks) && g.key != "ungrouped"
    ensures g in Large(Buckets(tasks))
  {
    var b := Buckets(tasks);
    var rest := Uncategorized(tasks) + SmallTasks(b);
    if |rest| > 0 {
      PutMember(Large(b), "ungrouped", rest, g);
    }
  }

  /**
   * With more than five tasks, every group other than `ungrouped` is a
   * category some task has, and holds all of that category's tasks, in
   * their order, at least three of them.
   */
  lemma GroupsAreLargeCategories(tasks: seq<Task>)
    requires |tasks| > 5
    ensures forall i | 0 <= i < |Grouping(tasks)| && Grouping(tasks)[i].key != "ungrouped" ::
      |Grouping(tasks)[i].tasks| >= 3 && Grouping(tasks)[i].tasks == OfCategory(tasks, Grouping(tasks)[i].key)
      && exists m | 0 <= m < |tasks| :: CategoryOf(tasks[m]) == Some(Grouping(tasks)[i].key)
  {
    forall i | 0 <= i < |Grouping(tasks)| && Grouping(tasks)[i].key != "ungrouped"
      ensures |Grouping(tasks)[i].tasks| >= 3 && Grouping(tasks)[i].tasks == OfCategory(tasks, Grouping(tasks)[i].key)
      && exists m | 0 <= m < |tasks| :: CategoryOf(tasks[m]) == Some(Grouping(tasks)[i].key)
    {
      var g := Grouping(tasks)[i];
      GroupingMember(tasks, g);
      LargeBucket(tasks, g);
      CategoriesOfMember(tasks, g.key);
    }
  }

  /** No task carries the category `ungrouped`, the key the grouping reserves for its leftovers. */
  predicate NoUngroupedCategory(tasks: seq<Task>)
  {
    forall m | 0 <= m < |tasks| :: CategoryOf(tasks[m]) != Some("ungrouped")
  }

  /** Without a category named `ungrouped`, the leftovers are added as a last group, and only when there are any. */
  lemma GroupingShape(tasks: seq<Task>)
    requires |tasks| > 5 && NoUngroupedCategory(tasks)
    ensures var b := Buckets(tasks);
      var rest := Uncategorized(tasks) + SmallTasks(b);
      Grouping(tasks) == if |rest| > 0 then Large(b) + [Group("ungrouped", rest)] else Large(b)
    ensures forall i | 0 <= i < |Large(Buckets(tasks))| :: Large(Buckets(tasks))[i].key != "ungrouped"
  {
    var v := Large(Buckets(tasks));
    forall i | 0 <= i < |v| ensures v[i].key != "ungrouped" {
      LargeBucket(tasks, v[i]);
      CategoriesOfMember(tasks, v[i].key);
    }
  }

  /** A task in a category with fewer than three tasks or in none: one that ends up under `ungrouped`. */
  predicate Leftover(tasks: seq<Task>, t: Task)
  {
    CategoryOf(t).None? || |OfCategory(tasks, CategoryOf(t).value)| < 3
  }

  lemma LeftoversExist(tasks: seq<Task>)
    ensures |Uncategorized(tasks) + SmallTasks(Buckets(tasks))| > 0
        <==> exists m | 0 <= m < |tasks| :: Leftover(tasks, tasks[m])
  {
    var b := Buckets(tasks);
    SmallTasksEmpty(b);
    if exists m | 0 <= m < |tasks| :: Leftover(tasks, tasks[m]) {
      var m :| 0 <= m < |tasks| && Leftover(tasks, tasks[m]);
      var x := tasks[m];
      if CategoryOf(x).None? {
        UncategorizedMember(tasks, x);
        assert |Uncategorized(tasks)| > 0;
      } else {
        var k := CategoryOf(x).value;
        CategoriesOfMember(tasks, k);
        var keys := Dedup(CategoriesOf(tasks));
        var j :| 0 <= j < |keys| && keys[j] == k;
        BucketMember(tasks, b[j]);
        assert |SmallTasks(b)| > 0;
      }
    } else {
      forall i | 0 <= i < |b| ensures |b[i].tasks| >= 3 {
        BucketMember(tasks, b[i]);
        CategoriesOfMember(tasks, b[i].key);
        var m :| 0 <= m < |tasks| && CategoryOf(tasks[m]) == Some(b[i].key);
        assert !Leftover(tasks, tasks[m]);
      }
      assert |SmallTasks(b)| == 0;
      if |Uncategorized(tasks)| > 0 {
        UncategorizedMember(tasks, Uncategorized(tasks)[0]);
      }
    }
  }

  /**
   * With more than five tasks and no category named `ungrouped`, the
   * `ungrouped` key is present exactly when some task has no category or
   * belongs to a category with fewer than three tasks; it is then the last key.
   */
  lemma UngroupedKeyPresence(tasks: seq<Task>)
    requires |tasks| > 5 && NoUngroupedCategory(tasks)
    ensures (exists i | 0 <= i < |Grouping(tasks)| :: Grouping(tasks)[i].key == "ungrouped")
        <==> exists m | 0 <= m < |tasks| :: Leftover(tasks, tasks[m])
    ensures forall i | 0 <= i < |Grouping(tasks)| - 1 :: Grouping(tasks)[i].key != "ungrouped"
  {
    var b := Buckets(tasks);
    var rest := Uncategorized(tasks) + SmallTasks(b);
    GroupingShape(tasks);
    LeftoversExist(tasks);
    var r := Grouping(tasks);
    if |rest| > 0 {
      assert r[|r| - 1].key == "ungrouped";
    }
  }

  lemma FlattenSnoc(gs: seq<Group>, g: Group)
    ensures Flatten(gs + [g]) == Flatten(gs) + g.tasks
  {
    assert (gs + [g])[..|gs|] == gs;
  }

  lemma {:induction false} FlattenConcat(a: seq<Group>, b: seq<Group>)
    ensures Flatten(a + b) == Flatten(a) + Flatten(b)
  {
    if b == [] {
      assert a + b == a;
    } else {
      var init, last := b[..|b| - 1], b[|b| - 1];
      assert b == init + [last];
      assert a + b == (a + init) + [last];
      FlattenConcat(a, init);
      FlattenSnoc(a + init, last);
      FlattenSnoc(init, last);
    }
  }

  /** Replacing one group's tasks replaces them in the flattened list too, as multisets. */
  lemma FlattenUpdate(gs: seq<Group>, j: nat, g: Group)
    requires j < |gs|
    ensures multiset(Flatten(gs[j := g])) + multiset(gs[j].tasks) == multiset(Flatten(gs)) + multiset(g.tasks)
  {
    var before, after := gs[..j], gs[j + 1..];
    assert gs == before + [gs[j]] + after;
    assert gs[j := g] == before + [g] + after;
    FlattenConcat(before + [gs[j]], after);
    FlattenConcat(before + [g], after);
    FlattenSnoc(before, gs[j]);
    FlattenSnoc(before, g);
  }

  lemma MultisetCancel<T>(a: multiset<T>, b: multiset<T>, x: multiset<T>)
    requires a + x == b + x
    ensures a == b
  {
    assert forall e :: a[e] == (a + x)[e] - x[e];
  }

  /** Pushing a task onto one group adds exactly that task to the flattened groups. */
  lemma FlattenPush(gs: seq<Group>, j: nat, key: string, t: Task)
    requires j < |gs|
    ensures multiset(Flatten(gs[j := Group(key, gs[j].tasks + [t])])) == multiset(Flatten(gs)) + multiset{t}
  {
    var g' := Group(key, gs[j].tasks + [t]);
    FlattenUpdate(gs, j, g');
    var before, after := multiset(gs[j].tasks), multiset(Flatten(gs[j := g']));
    assert multiset(g'.tasks) == before + multiset{t};
    MultisetCancel(after, multiset(Flatten(gs)) + multiset{t}, before);
  }

  /** The first loop loses and duplicates nothing: groups plus `ungrouped` hold the input, as a multiset. */
  lemma {:induction false} BucketsPartition(s: seq<Task>)
    ensures multiset(Flatten(Buckets(s))) + multiset(Uncategorized(s)) == multiset(s)
  {
    if s != [] {
      var init, t := s[..|s| - 1], s[|s| - 1];
      assert s == init + [t];
      BucketsPartition(init);
      var b := Buckets(init);
      if CategoryOf(t).None? {
        BucketsSnocNone(init, t);
        assert multiset(Uncategorized(s)) == multiset(Uncategorized(init)) + multiset{t};
      } else {
        var c := CategoryOf(t).value;
        BucketsSnoc(init, t, c);
        assert Uncategorized(s) == Uncategorized(init);
        var j := KeyIndex(b, c);
        if j < 0 {
          assert Buckets(s) == b + [Group(c, [t])];
          FlattenSnoc(b, Group(c, [t]));
          assert multiset(Flatten(Buckets(s))) == multiset(Flatten(b)) + multiset{t};
        } else {
          assert Buckets(s) == b[j := Group(c, b[j].tasks + [t])];
          FlattenPush(b, j, c, t);
        }
      }
    }
  }

  /** The second loop loses and duplicates nothing either. */
  lemma {:induction false} LargeSmallPartition(gs: seq<Group>)
    ensures multiset(Flatten(Large(gs))) + multiset(SmallTasks(gs)) == multiset(Flatten(gs))
  {
    if gs != [] {
      var init, last := gs[..|gs| - 1], gs[|gs| - 1];
      assert gs == init + [last];
      assert gs[..|gs| - 1] == init;
      LargeSmallPartition(init);
      FlattenSnoc(init, last);
      if |last.tasks| >= 3 {
        assert Large(gs) == Large(init) + [last] && SmallTasks(gs) == SmallTasks(init);
        FlattenSnoc(Large(init), last);
      } else {
        assert Large(gs) == Large(init) && SmallTasks(gs) == SmallTasks(init) + last.tasks;
      }
    }
  }

  /**
   * `groupTasks` is a partition: unless a task's category is literally
   * `ungrouped`, every task appears in exactly one group, as often as in
   * the input.
   */
  lemma GroupingIsPartition(tasks: seq<Task>)
    requires NoUngroupedCategory(tasks)
    ensures multiset(Flatten(Grouping(tasks))) == multiset(tasks)
  {
    if |tasks| <= 5 {
      FlattenSnoc([], Group("ungrouped", tasks));
    } else {
      var b := Buckets(tasks);
      var rest := Uncategorized(tasks) + SmallTasks(b);
      GroupingShape(tasks);
      BucketsPartition(tasks);
      LargeSmallPartition(b);
      if |rest| > 0 {
        FlattenSnoc(Large(b), Group("ungrouped", rest));
      }
    }
  }

  /** No two groups share a key. */
  predicate DistinctKeys(gs: seq<Group>)
  {
    forall i, j | 0 <= i < j < |gs| :: gs[i].key != gs[j].key
  }

  lemma BucketsDistinctKeys(s: seq<Task>)
    ensures DistinctKeys(Buckets(s))
  {
  }

  lemma {:induction false} LargeKeepsDistinctKeys(gs: seq<Group>)
    requires DistinctKeys(gs)
    ensures DistinctKeys(Large(gs))
  {
    if gs != [] {
      var init, last := gs[..|gs| - 1], gs[|gs| - 1];
      assert DistinctKeys(init);
      LargeKeepsDistinctKeys(init);
      if |last.tasks| >= 3 {
        forall i | 0 <= i < |Large(init)| ensures Large(init)[i].key != last.key {
          LargeMember(init, Large(init)[i]);
        }
      }
    }
  }

  lemma {:induction false} SmallTasksMember(gs: seq<Group>, x: Task)
    requires x in SmallTasks(gs)
    ensures exists i | 0 <= i < |gs| :: |gs[i].tasks| < 3 && x in gs[i].tasks
  {
    var init, last := gs[..|gs| - 1], gs[|gs| - 1];
    if x in SmallTasks(init) {
      SmallTasksMember(init, x);
      var i :| 0 <= i < |init| && |init[i].tasks| < 3 && x in init[i].tasks;
      assert gs[i] == init[i];
    } else {
      assert |gs[|gs| - 1].tasks| < 3 && x in gs[|gs| - 1].tasks;
    }
  }

  /**
   * A category literally named `ungrouped` collides with the leftovers'
   * key: when it has three tasks or more and some task has no category,
   * the leftovers overwrite that category's group, and its tasks are shown
   * in no group at all.
   */
  lemma UngroupedCategoryCollision(tasks: seq<Task>, x: Task)
    requires |tasks| > 5 && x in tasks && CategoryOf(x) == Some("ungrouped")
    requires |OfCategory(tasks, "ungrouped")| >= 3 && |Uncategorized(tasks)| > 0
    ensures forall i | 0 <= i < |Grouping(tasks)| :: x !in Grouping(tasks)[i].tasks
  {
    var k := "ungrouped";
    var b := Buckets(tasks);
    var rest := Uncategorized(tasks) + SmallTasks(b);
    UncategorizedMember(tasks, x);
    if x in SmallTasks(b) {
      SmallTasksMember(b, x);
      var i :| 0 <= i < |b| && |b[i].tasks| < 3 && x in b[i].tasks;
      BucketMember(tasks, b[i]);
      OfCategoryMember(tasks, b[i].key, x);
    }
    assert x !in rest;
    BucketsDistinctKeys(tasks);
    LargeKeepsDistinctKeys(b);
    var r := Grouping(tasks);
    assert r == Put(Large(b), k, rest);
    forall i | 0 <= i < |r| ensures x !in r[i].tasks {
      if r[i].key != k {
        GroupingMember(tasks, r[i]);
        LargeBucket(tasks, r[i]);
        OfCategoryMember(tasks, r[i].key, x);
      }
    }
  }
}
