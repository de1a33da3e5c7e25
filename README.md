# Trip command center: a verified model of its state and page logic

The application plans a fundraising trip. One React context keeps every
entity of the trip in one store: trips, tasks, meetings, documents,
expenses, pledges and communications, plus the selected trip. A reducer
changes this store in response to actions. Each page derives what it shows
from the store, such as:

- the records of the selected trip;
- status filters, totals and histograms;
- a task board;
- a timeline;
- a document search.

Each page also builds the records it dispatches from its form.

A second, page-local structure is the trip planner's master checklist. It
is a list of periods, each holding tasks. The planner can toggle, add,
delete and rename tasks, has a small edit state machine, and groups a
period's tasks by category.

This project models that core in Dafny:

- **Values** (`values.dfy`) is the JavaScript value world the code relies on:
  - records as `map<string, Value>`, so `{ ...a, ...b }` is `a + b`;
  - `undefined` for a missing key;
  - truthiness;
  - `===`, under which arrays, objects and `NaN` are never equal;
  - `amount || 0` and `+` with `NaN`;
  - filtering, trimming, lowercasing and `join`.
- **Store** (`store.dfy`) is the reducer. Each action is a constructor. The
  identifier and time an add stamps are parameters. The browser storage
  round trip is a snapshot.
- **Views** (`views.dfy`) holds the derivations several pages share:
  - the trip filter and the status filters;
  - the submitted-form record;
  - the modal form effect;
  - the zero-fallback sums;
  - the date sort.
- **Checklist** (`checklist.dfy`) is the trip planner's working checklist.
  The loops of `groupTasks` are methods proved against the functions that
  specify them.
- **ChecklistDefaults** (`checklist_defaults.dfy`) holds the master
  checklist, the default checklist built from it and the planner as it
  opens.
- **Destinations** (`destinations.dfy`) is `formatDestinations`, which the
  header and the dashboard write identically.
- The pages each have a module of their own: `AnalyticsPage`, `PledgesPage`,
  `ExpensesPage`, `DashboardPage`, `TripSetupPage`, `TimelinePage`,
  `TasksPage`, `MeetingsPage`, `CommunicationsPage`, `DocumentsPage` and
  `StatusBadge`.
  - A page's handlers are functions that return the store action they
    dispatch: `None` when they dispatch nothing.
  - `Store.Dispatch` applies that action, so a handler's effect on the store
    is stated as a lemma about `Store.Reduce`.
  - The loops of the trip setup submission, of the document upload and of
    the timeline's build are methods with loop invariants.

Every identifier the store hands out is a `freshId` parameter, and every
creation time is a `now` parameter. A sequence of them is written
`ids: nat -> Value` and `clock: nat -> Value`. The pages' own
`new Date().toISOString()` is a `stamp` parameter, and `Date.now()` is a
digit string.

## Model

| member | source | states |
|---|---|---|
| Store.Stamp | src/context/TripContext.jsx:28 | an added record is the payload with the store's `id` and `createdAt` over it: exactly those two keys are added or replaced, every other payload field is kept |
| Store.MergeById | src/context/TripContext.jsx:53-59 | an update keeps the list's length and order; a record whose id `===` the patch's id gets the patch's fields with the rest of its own kept, every other record is unchanged |
| Store.WithCollection | src/context/TripContext.jsx:29-33 | replacing one entity list leaves the other six, the selection, `loading` and `error` as they were |
| Store.Reduce | src/context/TripContext.jsx:19-109 | `SET_ERROR` and `LOAD_DATA` clear `loading`; every other action but `SET_LOADING` keeps `loading` and `error`; an unknown action returns the state unchanged |
| Store.ReduceFrame | src/context/TripContext.jsx:19-109 | an action changes no entity list it does not target |
| Store.SelectionFrame | src/context/TripContext.jsx:19-109 | an action other than a trip action, `SET_CURRENT_TRIP` or `LOAD_DATA` keeps the selected trip |
| Store.AddAppendsOne | src/context/TripContext.jsx:27-103 | every add appends exactly the stamped record to the end of its own list, leaves the other lists alone, and only `ADD_TRIP` changes the selection |
| Store.AddTripSelectsIt | src/context/TripContext.jsx:27-33 | the trip just added becomes the current trip, under the store's id |
| Store.AddTaskStep | src/context/TripContext.jsx:50-52 | `ADD_TASK` is the state with the stamped task appended to the tasks and nothing else changed |
| Store.AddTripStep | src/context/TripContext.jsx:27-33 | `ADD_TRIP` appends the stamped trip and selects it, nothing else changes |
| Store.AddDocumentStep | src/context/TripContext.jsx:80-82 | `ADD_DOCUMENT` appends the stamped document and changes nothing else |
| Store.AddCommunicationStep | src/context/TripContext.jsx:101-103 | `ADD_COMMUNICATION` appends the stamped communication and changes nothing else |
| Store.AddExpenseStep | src/context/TripContext.jsx:83-85 | `ADD_EXPENSE` appends the stamped expense and changes nothing else |
| Store.AddPledgeStep | src/context/TripContext.jsx:86-88 | `ADD_PLEDGE` appends the stamped pledge and changes nothing else |
| Store.UpdateMeetingStep | src/context/TripContext.jsx:68-74 | `UPDATE_MEETING` is the id-matched merge on the meetings and changes nothing else |
| Store.UpdateTaskStep | src/context/TripContext.jsx:53-59 | `UPDATE_TASK` is the id-matched merge on the tasks and changes nothing else |
| Store.UpdateIsTargetedMerge | src/context/TripContext.jsx:34-95 | each of the four updates keeps its list's length; a record with the patch's id gets the patch's fields and keeps its others, a record with another id is unchanged |
| Store.UpdateUnknownIdIsNoop | src/context/TripContext.jsx:34-95 | an update whose id matches no record leaves its list unchanged |
| Store.UpdateTripSelection | src/context/TripContext.jsx:40-42 | `UPDATE_TRIP` merges the patch into the current trip exactly when the ids are `===`, and otherwise leaves the selection as it was |
| Store.UpdateTaskStatusOnly | src/context/TripContext.jsx:53-59 | a status-only patch changes that task's status and nothing else of the store |
| Store.DeleteStep | src/context/TripContext.jsx:44-100 | each delete replaces its own list by the filter on the id |
| Store.RemoveByIdKeepsOthers | src/context/TripContext.jsx:60-64 | a delete keeps exactly the records whose id is not `===` the given one, and a list holding no such record is returned as it was |
| Store.DeleteIsIdempotent | src/context/TripContext.jsx:44-100 | deleting the same id twice leaves its list as deleting it once |
| Store.DeleteRemovesExactly | src/context/TripContext.jsx:44-100 | the list after a delete is the filter by id, and holds exactly the old records with another id |
| Store.DeleteTripSelectionNoCascade | src/context/TripContext.jsx:44-49 | deleting a trip clears the selection exactly when the selected trip had that id, and leaves tasks, meetings, documents, expenses, pledges and communications untouched |
| Store.AppendKeepsUnique | src/context/TripContext.jsx:28 | appending a record whose id is fresh keeps a list's ids distinct |
| Store.MergeByIdKeepsUnique | src/context/TripContext.jsx:53-59 | an update keeps a list's ids distinct and within the issued ones |
| Store.RemoveByIdKeepsUnique | src/context/TripContext.jsx:60-64 | a delete keeps a list's ids distinct |
| Store.StepKeepsIdsUnique | src/context/TripContext.jsx:19-103 | every action but `LOAD_DATA`, given a fresh id for an add, keeps the ids of every list distinct |
| Store.RunKeepsIdsUnique | src/context/TripContext.jsx:19-103 | a run of such actions with pairwise distinct fresh ids keeps every list's ids distinct |
| Store.Hydrate | src/context/TripContext.jsx:115-125 | with nothing saved the store starts from the initial state; loading always ends with `loading` false |
| Store.PersistRoundTrip | src/context/TripContext.jsx:115-130 | loading what was saved gives back the saved state, with `loading` false, for a serialisation taken to lose nothing (see "Left out") |
| Store.LoadDataOverwritesSuppliedKeys | src/context/TripContext.jsx:104-105 | `LOAD_DATA` makes every list the payload supplies equal to the payload's list and keeps every other list; the selection and the error are the payload's when it supplies them and are kept otherwise; `loading` is cleared |
| Store.Lifecycle | src/context/TripContext.jsx:27-64 | adding a trip, adding a task, completing it and deleting the trip selects then deselects the trip and leaves the completed task in the store |
| Views.ForTrip | src/pages/Tasks.jsx:296 | a trip's records are exactly the records whose `tripId` is `===` the trip's id |
| Views.OfCurrentTrip | src/pages/Pledges.jsx:323 | the current trip's records are those whose `tripId` is `===` its id; with no trip, those whose `tripId` is missing |
| Views.WithStatus | src/pages/Tasks.jsx:113 | a column holds exactly the records with that status |
| Views.StatusFilter | src/pages/Pledges.jsx:325-328 | `'all'` keeps the list; any other filter keeps exactly the records with that status |
| Views.ForTripConcat | src/pages/Pledges.jsx:323 | the trip filter distributes over concatenation, so store order is kept |
| Views.ForTripAppends | src/pages/Pledges.jsx:323 | a record of the trip appended to the store is appended to the trip's list |
| Views.ForTripKeepsAll | src/pages/Documents.jsx:248 | a list whose every record belongs to the trip passes the filter whole |
| Views.ForTripIdempotent | src/pages/Analytics.jsx:55-57 | restricting a list to a trip twice gives the same as restricting it once |
| Views.ForTripSkipsOthers | src/pages/Pledges.jsx:323 | a record of another trip appended to the store leaves the trip's list as it was |
| Views.Submitted | src/pages/Pledges.jsx:118-123 | a submitted form carries the current trip's id and the update time, the page's own fields over the form's, and every other form field |
| Views.FormOnOpen | src/pages/Tasks.jsx:157-161 | the modal form becomes the edited record when one is given, and otherwise keeps what it held |
| Views.AddAfterEditShowsEdited | src/pages/Tasks.jsx:157-161 | opening the form for a new record after an edit shows the edited record |
| Views.FormOnOpenFixed | src/pages/Tasks.jsx:145-161 | the intended form: the edited record, or the blank form when none is given |
| Views.AddAfterEditStartsBlank | src/pages/Tasks.jsx:145-161 | with the intended form, a new record after an edit starts from the blank form |
| Views.SumConcat | src/pages/Pledges.jsx:330 | the zero-fallback sum of a concatenation is the sum of the sums |
| Views.SumSkipsMissing | src/pages/Pledges.jsx:330 | a record whose amount is falsy (missing, 0, `NaN`) adds nothing to a total |
| Views.SumNonNegative | src/pages/Pledges.jsx:330 | with non-negative amounts a total is non-negative |
| Views.SumFilterAtMost | src/pages/Pledges.jsx:330-336 | with non-negative amounts the total of a filtered list is at most the total of the list |
| Views.TwoStatusesAtMost | src/pages/Pledges.jsx:330-336 | with non-negative amounts the totals of two different statuses add up to at most the whole total |
| Views.StatusTotals | src/pages/Pledges.jsx:330-336 | the two status totals are non-negative and their sum is at most the total, given non-negative amounts |
| Views.InsertSorted | src/pages/Timeline.jsx:57 | inserting into a date-sorted list keeps it sorted |
| Views.SortByDate | src/pages/Timeline.jsx:57 | the sort is a permutation of its input in ascending date order |
| Views.Take | src/pages/Dashboard.jsx:235 | `slice(0, n)` is the first `min(n, length)` records |
| ChecklistDefaults.MasterShape | src/pages/TripPlanner.jsx:13-153 | the master checklist has nine periods, `period-1` first and only there |
| ChecklistDefaults.DefaultChecklist | src/pages/TripPlanner.jsx:367-371 | the default checklist has the master's periods and task ids, titles and categories, every task not completed and not custom, and only `period-1` expanded |
| ChecklistDefaults.DefaultExpandsFirstOnly | src/pages/TripPlanner.jsx:499-505 | after a reset only the first period is expanded and no period counts a completed task |
| Checklist.CompletedCount | src/pages/TripPlanner.jsx:592 | a period's completed count is at most its size, and equal to it exactly when every task is completed |
| Checklist.ToggleTask | src/pages/TripPlanner.jsx:406-420 | the toggle flips `completed` on the matching task of the matching period and changes nothing else |
| Checklist.ToggleTwiceRestores | src/pages/TripPlanner.jsx:406-420 | toggling the same task twice restores the checklist |
| Checklist.AddTask | src/pages/TripPlanner.jsx:424-442 | adding appends the new custom task to the end of the matching period and leaves the other periods as they were |
| Checklist.AddToUnknownPeriod | src/pages/TripPlanner.jsx:424-442 | adding to a period id that does not exist changes nothing |
| Checklist.SubmitNewTask | src/pages/TripPlanner.jsx:305-312 | a blank title adds nothing; otherwise the trimmed, non-empty title is added |
| Checklist.DeleteTask | src/pages/TripPlanner.jsx:483-497 | deleting keeps exactly the other tasks of the matching period and leaves every other period as it was |
| Checklist.DeleteTwiceIsOnce | src/pages/TripPlanner.jsx:483-497 | deleting is idempotent |
| Checklist.DeleteUndoesAdd | src/pages/TripPlanner.jsx:424-497 | deleting a task just added under an unused id gives the checklist back |
| Checklist.RenameTask | src/pages/TripPlanner.jsx:464-477 | renaming sets the title of the matching task of the matching period and changes nothing else |
| Checklist.RenameNothing | src/pages/TripPlanner.jsx:464-477 | with no task or no period being edited, renaming changes nothing |
| ChecklistDefaults.Open | src/pages/TripPlanner.jsx:357-372 | the planner opens on the default checklist and is not editing |
| Checklist.StartEditTask | src/pages/TripPlanner.jsx:446-450 | starting an edit records the period, the task and its title and leaves the checklist alone |
| Checklist.SaveEditedTask | src/pages/TripPlanner.jsx:452-481 | a typed title only updates the edit buffer; committing leaves edit mode, keeps the checklist when the buffer is blank, and otherwise renames the edited task |
| Checklist.EditRoundTrip | src/pages/TripPlanner.jsx:446-481 | start, type a non-blank title and commit renames exactly that task and ends the edit |
| Checklist.GroupTasks | src/pages/TripPlanner.jsx:519-553 | `groupTasks` computes the grouping; five tasks or fewer give the single `ungrouped` group with the tasks in order |
| Checklist.CollectByCategory | src/pages/TripPlanner.jsx:527-536 | the first loop builds the buckets of the categories in order of first appearance and the list of uncategorised tasks |
| Checklist.KeepLargeGroups | src/pages/TripPlanner.jsx:539-546 | the second loop keeps the buckets of at least three tasks and moves the tasks of the others, in order, behind the uncategorised ones |
| Checklist.BucketsPartition | src/pages/TripPlanner.jsx:527-536 | the buckets and the uncategorised tasks together hold every task exactly once |
| Checklist.LargeSmallPartition | src/pages/TripPlanner.jsx:539-546 | the kept groups and the moved tasks together hold every bucketed task exactly once |
| Checklist.GroupingIsPartition | src/pages/TripPlanner.jsx:519-553 | when no category is literally `ungrouped`, every task is in exactly one group |
| Checklist.GroupsAreLargeCategories | src/pages/TripPlanner.jsx:538-546 | on more than five tasks every category group holds at least three tasks, exactly the tasks of that category |
| Checklist.GroupingShape | src/pages/TripPlanner.jsx:538-551 | on more than five tasks, none of them in a category named `ungrouped`, the groups are the large buckets followed by `ungrouped` exactly when there are leftovers |
| Checklist.UngroupedKeyPresence | src/pages/TripPlanner.jsx:548-550 | on more than five tasks, none of them in a category named `ungrouped`, the `ungrouped` key is present exactly when some task is uncategorised or in a small category, and only in last place |
| Checklist.BucketsDistinctKeys | src/pages/TripPlanner.jsx:529-532 | no two buckets share a category |
| Checklist.UngroupedCategoryCollision | src/pages/TripPlanner.jsx:548-550 | a category named `ungrouped` with at least three tasks is overwritten by the leftovers, and its tasks are shown in no group |
| Destinations.FormatOne | src/components/layout/Header.jsx:20-21 | a destination reads `cities (country)` with its cities joined by `, `, or its country alone when the cities join to nothing |
| Destinations.Format | src/components/layout/Header.jsx:17-23 | a missing or empty list formats to the empty string |
| Destinations.CountryAlone | src/pages/Dashboard.jsx:49-50 | a destination shows its country alone exactly when it has no city, or one empty city |
| Destinations.FormatLength | src/components/layout/Header.jsx:22 | n destinations are separated by exactly n - 1 separators |
| Destinations.FormatAppend | src/pages/Dashboard.jsx:48-51 | one more destination appends a separator and that destination, so order is kept |
| Destinations.RoundTrip | src/pages/TripSetup.jsx:219-224 | the stored destination list decodes back to the typed one |
| AnalyticsPage.Compute | src/pages/Analytics.jsx:52-113 | there is no summary exactly when no trip is selected |
| AnalyticsPage.SummaryIsConsistent | src/pages/Analytics.jsx:59-92 | completed tasks at most the total, a completion rate in 0..100 that is 0 for no tasks, completed meetings at most the total, meeting-type counts summing to the total, and, for non-negative amounts, confirmed plus received at most the pledge total |
| AnalyticsPage.OtherTripsIgnored | src/pages/Analytics.jsx:55-57 | two states with the same selected trip whose tasks, meetings and pledges agree on that trip's records have the same summary |
| AnalyticsPage.OnlyCurrentTripCounts | src/pages/Analytics.jsx:55-57 | removing every record of another trip from the store leaves the summary unchanged |
| AnalyticsPage.Bump | src/pages/Analytics.jsx:85 | counting one meeting keeps one entry per type |
| AnalyticsPage.BumpTotal | src/pages/Analytics.jsx:85 | counting one meeting adds one to the total count |
| AnalyticsPage.BumpCount | src/pages/Analytics.jsx:85 | counting one meeting adds one to its type and nothing to the others |
| AnalyticsPage.PledgesByTypeSnoc | src/pages/Analytics.jsx:89-92 | one more pledge changes only its own type's entry, to `(acc[k] \|\| 0) + amount` |
| AnalyticsPage.MeetingsByType | src/pages/Analytics.jsx:84-87 | the histogram has one entry per type |
| AnalyticsPage.MeetingsByTypeCounts | src/pages/Analytics.jsx:84-87 | each type's count is the number of meetings of that type |
| AnalyticsPage.MeetingsByTypeTotal | src/pages/Analytics.jsx:84-87 | the counts sum to the number of meetings |
| AnalyticsPage.Accumulate | src/pages/Analytics.jsx:90 | adding a pledge sets its type to the old sum, or 0, plus the raw amount and leaves the other types |
| AnalyticsPage.PledgesByType | src/pages/Analytics.jsx:89-92 | the pledge histogram has one entry per type |
| AnalyticsPage.PledgesByTypeSums | src/pages/Analytics.jsx:89-92 | when a type's amounts are all numbers, its entry is their sum, and it is absent while no pledge has that type |
| AnalyticsPage.MissingAmountIsNaN | src/pages/Analytics.jsx:89-92 | a pledge whose amount is not a number turns its type's entry into `NaN`, while the zero-fallback total just skips it |
| AnalyticsPage.Progress | src/pages/Analytics.jsx:32 | progress toward a zero target is 0, and otherwise in 0..100 while the current value is at most the target |
| PledgesPage.FilteredPledges | src/pages/Pledges.jsx:323-328 | `'all'` shows the trip's pledges; any other filter exactly those of the trip with that status |
| PledgesPage.PledgeTotals | src/pages/Pledges.jsx:330-336 | with non-negative amounts, confirmed and received are non-negative and add up to at most the total |
| PledgesPage.Submit | src/pages/Pledges.jsx:116-123 | the saved pledge carries the trip's id, the parsed amount and the update time, and every other form field |
| PledgesPage.Save | src/pages/Pledges.jsx:358-367 | while editing, an update carrying every key of the old pledge and of the form, the form's value on each form key and the old pledge's value on every other key; otherwise an add of the form |
| PledgesPage.SaveEditedPledge | src/pages/Pledges.jsx:358-367 | saving an edit replaces that pledge by the merge and leaves every other pledge and list as it was |
| PledgesPage.NewPledgeIsListed | src/pages/Pledges.jsx:116-123 | a new pledge joins the end of the trip's list |
| ExpensesPage.FilteredExpenses | src/pages/Expenses.jsx:316-321 | `'all'` shows the trip's expenses; any other filter exactly those of the trip with that status |
| ExpensesPage.ExpenseTotals | src/pages/Expenses.jsx:323-329 | with non-negative amounts, approved and pending are non-negative and add up to at most the total |
| ExpensesPage.Submit | src/pages/Expenses.jsx:111-118 | the saved expense carries the trip's id, the parsed amount and the update time, and every other form field |
| ExpensesPage.Save | src/pages/Expenses.jsx:342-350 | only a new expense is dispatched, as an add |
| ExpensesPage.Delete | src/pages/Expenses.jsx:336-340 | a confirmed delete dispatches nothing |
| ExpensesPage.ExpensesOnlyGrow | src/pages/Expenses.jsx:336-350 | deleting and saving an edit leave the store as it was; saving a new expense appends it |
| ExpensesPage.NewExpenseIsListed | src/pages/Expenses.jsx:111-118 | a new expense joins the end of the trip's list |
| DashboardPage.TaskProgress | src/pages/Dashboard.jsx:19-21 | completed tasks are at most the trip's tasks, and the progress is in 0..100 and 0 for a trip with no task |
| DashboardPage.OpenTasks | src/pages/Dashboard.jsx:159 | the open tasks are exactly the trip's tasks not completed |
| DashboardPage.ActionItems | src/pages/Dashboard.jsx:158-161 | at most five, all open tasks of the trip, the first ones in store order, and five whenever there are five |
| DashboardPage.Milestones | src/pages/Dashboard.jsx:232-235 | at most three of the trip's meetings in date order, and three whenever there are three |
| DashboardPage.MilestonesAreEarliest | src/pages/Dashboard.jsx:232-235 | no meeting left out is earlier than one shown |
| DashboardPage.PledgeTotals | src/pages/Dashboard.jsx:27-33 | the total is the zero-fallback sum of the trip's pledges, and the confirmed sum lies between 0 and the total for non-negative amounts |
| TripSetupPage.InputChange | src/pages/TripSetup.jsx:113-118 | one text field takes the value, the lists stay |
| TripSetupPage.CountryChange | src/pages/TripSetup.jsx:120-127 | only the addressed destination's country changes |
| TripSetupPage.CityChange | src/pages/TripSetup.jsx:129-141 | only the addressed city of the addressed destination changes |
| TripSetupPage.AddDestination | src/pages/TripSetup.jsx:143-148 | an empty destination with one empty city is appended |
| TripSetupPage.RemoveDestination | src/pages/TripSetup.jsx:150-157 | removes exactly the addressed destination, and nothing while only one is left |
| TripSetupPage.AddCity | src/pages/TripSetup.jsx:159-168 | an empty city is appended to the addressed destination only |
| TripSetupPage.RemoveCity | src/pages/TripSetup.jsx:170-179 | removes the addressed city of the addressed destination only |
| TripSetupPage.MemberChange | src/pages/TripSetup.jsx:181-186 | only the addressed team member changes |
| TripSetupPage.AddMember | src/pages/TripSetup.jsx:188-193 | an empty member is appended |
| TripSetupPage.RemoveMember | src/pages/TripSetup.jsx:195-202 | removes exactly the addressed member, and nothing while only one is left |
| TripSetupPage.InitialWellShaped | src/pages/TripSetup.jsx:104-110 | the form starts with a destination holding a city field, and a member field |
| TripSetupPage.FieldEditorsKeepShape | src/pages/TripSetup.jsx:113-202 | the text and team editors keep at least one destination, one city field each and one member |
| TripSetupPage.DestinationEditorsKeepShape | src/pages/TripSetup.jsx:120-157 | the destination editors keep that shape |
| TripSetupPage.CityEditorsKeepShape | src/pages/TripSetup.jsx:129-179 | the city editors keep it, removing a city while the destination has more than one |
| TripSetupPage.FilledCities | src/pages/TripSetup.jsx:221-224 | a destination keeps its country and exactly its non-blank cities |
| TripSetupPage.CleanDestinations | src/pages/TripSetup.jsx:219-224 | the created destinations are no more than the typed ones, each with a filled country and only filled cities |
| TripSetupPage.CleanDestinationsMembers | src/pages/TripSetup.jsx:219-224 | a destination is created exactly when its country and some city are filled, without its blank cities |
| TripSetupPage.CleanDestinationsIdempotent | src/pages/TripSetup.jsx:219-224 | cleaning twice is cleaning once |
| TripSetupPage.CleanIsIdentity | src/pages/TripSetup.jsx:219-224 | fully filled destinations are created as typed |
| TripSetupPage.CleanMembers | src/pages/TripSetup.jsx:225 | the team is exactly the non-blank members |
| TripSetupPage.TripData | src/pages/TripSetup.jsx:217-228 | the trip is created with status `'planning'`, the cleaned destinations and team, and a creation time |
| TripSetupPage.DefaultTasksInDueOrder | src/pages/TripSetup.jsx:13-98 | twelve default tasks, from 120 days before the start to 30 days after, in due order |
| TripSetupPage.Assignee | src/pages/TripSetup.jsx:240 | the first member field as typed, or `'Unassigned'` when it is empty |
| TripSetupPage.NewTrip | src/pages/TripSetup.jsx:217-230 | the stored trip has the store's first id, status `'planning'` and the cleaned destinations |
| TripSetupPage.NewTask | src/pages/TripSetup.jsx:235-243 | a default task has the template's fields, the given trip id, status `'not-started'`, the computed due date and the assignee |
| TripSetupPage.NewTasks | src/pages/TripSetup.jsx:234-244 | one task per template, all under the given trip id, each with its own identifier |
| TripSetupPage.AddDefaultTasks | src/pages/TripSetup.jsx:234-244 | the loop appends one new task per template in template order and changes nothing else |
| TripSetupPage.Submit | src/pages/TripSetup.jsx:211-244 | submission adds and selects the trip, then files the twelve default tasks under the `Date.now()` text |
| TripSetupPage.DefaultTasksMissTheirTrip | src/pages/TripSetup.jsx:233 | when the trip's id differs from that text, the trip's task list is the same after the submission as before |
| TripSetupPage.UuidIsNotATimestamp | src/pages/TripSetup.jsx:233 | an identifier holding a `-` never equals an all-digit time text |
| TripSetupPage.SubmitLinked | src/pages/TripSetup.jsx:211-244 | the corrected submission files the default tasks under the id the store gave the trip |
| TripSetupPage.DefaultTasksJoinTheirTrip | src/pages/TripSetup.jsx:230-244 | with the corrected submission the twelve tasks join the new trip's list, in template order |
| TimelinePage.ItemFields | src/pages/Timeline.jsx:34-40 | an entry keeps every field of its record and carries its kind, date, title and status |
| TimelinePage.Items | src/pages/Timeline.jsx:33-41 | one entry per record, in order |
| TimelinePage.Timeline | src/pages/Timeline.jsx:25-60 | empty without a trip; otherwise a permutation of the trip's task and meeting entries, in date order |
| TimelinePage.PushItems | src/pages/Timeline.jsx:31-54 | a `forEach` push appends one entry per record |
| TimelinePage.TimelineItems | src/pages/Timeline.jsx:25-60 | the memo's pushes and sort compute the timeline |
| TimelinePage.TimelineContents | src/pages/Timeline.jsx:25-60 | the timeline has one entry per task and meeting of the trip, each of the trip and each a task or a meeting entry |
| TimelinePage.MeetingOnTimeline | src/pages/Timeline.jsx:44-54 | every meeting of the trip appears as its entry |
| TimelinePage.FilteredItems | src/pages/Timeline.jsx:62-68 | an entry passes exactly when both the status and the category filter pass it, `'all'` passing everything |
| TimelinePage.CategoryValues | src/pages/Timeline.jsx:72-73 | the category of each entry, in order |
| TimelinePage.Categories | src/pages/Timeline.jsx:70-76 | each truthy category of an entry is offered exactly once, in order of first appearance, and nothing else is |
| TimelinePage.ToggleItem | src/pages/Timeline.jsx:101-105 | as written, the whole toggled entry, its `type` included, is the update |
| TimelinePage.ToggleFromTimelineClobbersType | src/pages/Timeline.jsx:101-105 | as written, completing a meeting from the timeline sets its stored type to `'meeting'` |
| TimelinePage.ToggleItemFixed | src/pages/Timeline.jsx:101-113 | the intended toggle sends only the id and the new status |
| TimelinePage.SaveNotesFixed | src/pages/Timeline.jsx:116-124 | the intended notes save sends only the id and the notes |
| TimelinePage.PatchMeeting | src/pages/Timeline.jsx:105 | a one-field patch under a meeting's id sets that field of that meeting only |
| TimelinePage.CompleteFromTimelineKeepsMeeting | src/pages/Timeline.jsx:101-124 | with the intended toggle, completing and saving notes leaves the meeting's type and other fields as they were |
| TasksPage.ColumnsAreDisjoint | src/pages/Tasks.jsx:15-19 | no task shows in two columns, and a task with another status in none |
| TasksPage.OffBoardIff | src/pages/Tasks.jsx:15-19 | a task is on no column exactly when its status is none of the three column ids |
| TasksPage.ColumnCounts | src/pages/Tasks.jsx:113 | the three columns and the off-board tasks together count every task once |
| TasksPage.Drop | src/pages/Tasks.jsx:102-107 | a card from another column dispatches an update of its id to the column's status; one from the same column dispatches nothing |
| TasksPage.DropMovesTask | src/pages/Tasks.jsx:102-107 | a drop changes the dropped task's status only, and no other task |
| TasksPage.DroppedTaskShowsInColumn | src/pages/Tasks.jsx:102-113 | after a drop, a task of the trip shows in the column it was dropped on and in no other |
| TasksPage.Submit | src/pages/Tasks.jsx:163-171 | the saved task carries the trip's id and update time and every other form field |
| TasksPage.Save | src/pages/Tasks.jsx:310-319 | while editing, an update carrying every key of the old task and of the form, the form's value on each form key and the old task's value on every other key; otherwise an add of the form |
| TasksPage.Delete | src/pages/Tasks.jsx:303-308 | a confirmed delete removes the task by id |
| TasksPage.NewTaskIsListed | src/pages/Tasks.jsx:310-319 | a new task joins the end of the trip's board |
| TasksPage.AddAfterEditCopiesTask | src/pages/Tasks.jsx:157-161 | as written, adding after an edit stores a second task with the edited task's title |
| TasksPage.AddAfterEditAddsBlank | src/pages/Tasks.jsx:145-155 | with the intended form, adding after an edit stores a task from the blank form: no title, `'medium'`, `'not-started'` |
| MeetingsPage.FilteredMeetings | src/pages/Meetings.jsx:465-469 | `'all'` shows the trip's meetings; any other filter exactly those of the trip with that status |
| MeetingsPage.ModalForm | src/pages/Meetings.jsx:124-136 | an edited meeting fills the form with its fields, and with notes it can edit when it has none; otherwise the form keeps what it held |
| MeetingsPage.NotesChange | src/pages/Meetings.jsx:148-153 | one note field takes the value; the other notes and fields stay |
| MeetingsPage.Submit | src/pages/Meetings.jsx:138-146 | the saved meeting carries the trip's id and update time and every other form field |
| MeetingsPage.Save | src/pages/Meetings.jsx:506-515 | while editing, an update carrying every key of the old meeting and of the form, the form's value on each form key and the old meeting's value on every other key; otherwise an add of the form |
| MeetingsPage.Delete | src/pages/Meetings.jsx:499-504 | a confirmed delete removes the meeting by id |
| MeetingsPage.NextStatus | src/pages/Meetings.jsx:483 | `'completed'` becomes `'scheduled'` and everything else `'completed'` |
| MeetingsPage.NextStatusTwice | src/pages/Meetings.jsx:483 | from `'completed'` or `'scheduled'`, two toggles come back |
| MeetingsPage.NextStatusTwiceElsewhere | src/pages/Meetings.jsx:483 | from any other status, two toggles end at `'scheduled'` and do not come back |
| MeetingsPage.Toggled | src/pages/Meetings.jsx:484 | only the status changes |
| MeetingsPage.ToggleComplete | src/pages/Meetings.jsx:482-497 | the toggled meeting is dispatched; completing it opens its notes for writing, un-completing leaves the notes window alone |
| MeetingsPage.ViewNotes | src/pages/Meetings.jsx:476-480 | the meeting's notes open read-only |
| MeetingsPage.AddNotes | src/pages/Meetings.jsx:527-531 | the meeting's notes open for writing |
| MeetingsPage.SaveNotes | src/pages/Meetings.jsx:517-525 | the viewed meeting with only its notes replaced is dispatched; nothing when none is viewed |
| MeetingsPage.NotesOnOpen | src/pages/Meetings.jsx:336-340 | the notes window takes the meeting's notes when it has any, and keeps its own otherwise |
| MeetingsPage.NewMeetingHasNoNotes | src/pages/Meetings.jsx:58 | a new meeting offers no notes to view |
| MeetingsPage.ToggleInStore | src/pages/Meetings.jsx:482-486 | toggling a stored meeting changes its status only, and no other meeting or list |
| MeetingsPage.ToggleTwiceRestores | src/pages/Meetings.jsx:482-486 | toggling a completed or scheduled meeting twice restores it |
| MeetingsPage.CompleteThenSaveNotes | src/pages/Meetings.jsx:482-525 | completing and saving notes leaves the meeting completed with the new notes and every other field as it was |
| CommunicationsPage.RecipientChange | src/pages/Communications.jsx:122-127 | only the addressed recipient changes |
| CommunicationsPage.AddRecipient | src/pages/Communications.jsx:129-134 | an empty recipient is appended |
| CommunicationsPage.RemoveRecipient | src/pages/Communications.jsx:136-143 | removes exactly the addressed recipient, and nothing while only one is left |
| CommunicationsPage.EditorsKeepShape | src/pages/Communications.jsx:93-143 | the form starts with a recipient field and every editor keeps at least one |
| CommunicationsPage.AddThenRemoveRecipient | src/pages/Communications.jsx:129-143 | adding a recipient and removing it again gives the form back |
| CommunicationsPage.Submit | src/pages/Communications.jsx:111-120 | the saved communication carries the trip's id, the update time, every form field and exactly the non-blank recipients in order |
| CommunicationsPage.SubmittedRecipients | src/pages/Communications.jsx:114-116 | the saved recipients are exactly the typed ones that are not blank |
| CommunicationsPage.BlankFormHasNoRecipients | src/pages/Communications.jsx:93-116 | the blank form saves no recipient |
| CommunicationsPage.LoadTemplate | src/pages/Communications.jsx:160-170 | a known key sets the subject, the body and the type to the key; any other key changes nothing |
| CommunicationsPage.ChooseTemplate | src/pages/Communications.jsx:210-213 | the choice is recorded and a known template loaded |
| CommunicationsPage.TemplatesAreTypes | src/pages/Communications.jsx:145-158 | every template is a type the form offers |
| CommunicationsPage.LoadTemplateIdempotent | src/pages/Communications.jsx:160-170 | loading a template twice is loading it once |
| CommunicationsPage.Save | src/pages/Communications.jsx:359-367 | only a new communication is dispatched, as an add |
| CommunicationsPage.EditAndDeleteKeepStore | src/pages/Communications.jsx:348-367 | saving an edit and deleting leave the store as it was |
| CommunicationsPage.NewCommunicationIsListed | src/pages/Communications.jsx:336-367 | a new communication joins the trip's list and shows under every filter its status passes |
| DocumentsPage.FilteredDocuments | src/pages/Documents.jsx:250-255 | a document is shown exactly when it matches both the search and the category |
| DocumentsPage.SearchIgnoresCase | src/pages/Documents.jsx:251-252 | a term matches exactly when its lowercase does |
| DocumentsPage.NameContainingTermMatches | src/pages/Documents.jsx:251 | a name containing the term as typed is found |
| DocumentsPage.EmptySearchKeepsAll | src/pages/Documents.jsx:250-255 | an empty search under `'all'` shows every document |
| DocumentsPage.Categories | src/pages/Documents.jsx:257 | each category of the trip's documents is offered once, and nothing else is |
| DocumentsPage.OfferedCategoriesAreUsed | src/pages/Documents.jsx:253-257 | every offered category selects at least one document |
| DocumentsPage.CategoryOf | src/pages/Documents.jsx:126 | the typed category, or `'General'` when none was typed |
| DocumentsPage.Uploaded | src/pages/Documents.jsx:259-266 | an uploaded document carries the trip's id, version 1 and a creation time over the file's data |
| DocumentsPage.NewDocumentFields | src/pages/Documents.jsx:121-130 | each stored document carries its file's name, type and size, the category, the description, the trip's id, version 1 and its own id |
| DocumentsPage.Upload | src/pages/Documents.jsx:117-137 | no file changes nothing; otherwise one document per file is appended in order and the form is cleared |
| DocumentsPage.UploadedAreListed | src/pages/Documents.jsx:259-266 | the uploaded documents join the end of the trip's list |
| DocumentsPage.UploadedCategoryOffered | src/pages/Documents.jsx:257-266 | an upload's category is then offered |
| DocumentsPage.DeleteKeepsStore | src/pages/Documents.jsx:269-273 | deleting leaves the store as it was |
| StatusBadge.Label | src/components/common/StatusBadge.jsx:5-43 | a known status gets its group's label; any other non-empty status is shown as it is; a missing or empty one reads `'Unknown'` |
| StatusBadge.LabelIgnoresCase | src/components/common/StatusBadge.jsx:5 | two spellings that lowercase alike get the same label |
| StatusBadge.CompletedIff | src/components/common/StatusBadge.jsx:6-12 | `'Completed'` exactly for `completed`, `done` and `confirmed` in any case |
| StatusBadge.InProgressIff | src/components/common/StatusBadge.jsx:13-19 | `'In Progress'` exactly for `in progress`, `in-progress` and `active` |
| StatusBadge.PendingIff | src/components/common/StatusBadge.jsx:20-25 | `'Pending'` exactly for `pending` and `scheduled` |
| StatusBadge.OverdueIff | src/components/common/StatusBadge.jsx:26-31 | `'Overdue'` exactly for `overdue` and `urgent` |
| StatusBadge.NotStartedIff | src/components/common/StatusBadge.jsx:32-38 | `'Not Started'` exactly for `not started`, `not-started` and `draft` |
| StatusBadge.UnknownIff | src/components/common/StatusBadge.jsx:39-43 | `'Unknown'` exactly for a missing or empty status, or the text `Unknown` itself |
| Values.OrZero | src/pages/Pledges.jsx:330 | `amount \|\| 0` is 0 for a falsy amount and the amount for a number |
| Values.Plus | src/pages/Analytics.jsx:90 | `+` gives a number exactly when both sides are numbers, and `NaN` otherwise |
| Values.Percent | src/pages/Analytics.jsx:65 | the rate is 0 for no items, in 0..100, and 100 when all are done |
| Values.TrimEmptyIffBlank | src/pages/TripSetup.jsx:225 | `trim()` is empty exactly for a blank text |
| Values.IncludesLower | src/pages/Documents.jsx:251 | a text containing a term still contains it once both are lowercased |

## Left out

- Browser storage is input and output. `Store.Persisted` and `Store.Hydrate` stand for the saved snapshot and for loading it. A save that fails and unparsable saved data are not modelled, and neither is the planner's own storage key (src/pages/TripPlanner.jsx:357-366, 388-390).
- `uuidv4()`, `new Date()` and `Date.now()` are parameters, the only guarantee being the freshness the uniqueness lemmas assume. `Date.now()` text is any string of digits.
- Dates are compared through `Views.DateKey`, a day number. A date that is not a number sorts as day 0. Sort stability for equal dates is not stated.
- Dates and the clock are left out: overdue and upcoming counts, `getDaysUntil`, `calculateDueDate` (the `due` parameter), and every `formatDate` or `toLocaleDateString`.
- Floating point is approximated:
  - Amounts are integers (cents). `parseFloat` is the `parsedAmount` parameter.
  - Percentages are Dafny reals.
  - Rounding, `toFixed`, the progress ring's geometry and `formatFileSize` are not modelled.
- `toLowerCase` lowercases ASCII letters only. Unicode case mapping is not modelled.
- A document whose name is not text never matches the search; in the source the page throws on it.
- The order of an object's keys is modelled as first insertion. Integer-like keys, which JavaScript lists first, are not modelled.
- `Set` membership on object values uses value equality in the model, where JavaScript uses reference identity.
- `confirm()` dialogs are always confirmed. Notifications, animations, routing, the JSX itself, icons, badge colours and the drag-and-drop mechanics are not modelled; only the drop's effect is.
- File contents, object URLs and receipt uploads are not modelled. A chosen file is its name, type and size.
- The communications form is modelled as text fields plus a list of recipients. Editing a stored communication, whose edits the page drops anyway, does not decode the record back into that form.
- The trip planner's expand/collapse state, its sub-grouping display and its add-task modal visibility are not modelled.
- The trip setup's loading flag and its error branch are not modelled.
- `Destinations.Format`: the two components write it identically, and one function models both. It is stated for destinations that are well formed, i.e. a country text and a list of city texts.
- Checklist.GroupingIsPartition: stated only for checklists in which no task's category is literally `ungrouped`. `Checklist.UngroupedCategoryCollision` shows what happens otherwise.
- Store.PersistRoundTrip: states the round trip for a lossless serialisation. `JSON.stringify` followed by `JSON.parse` is not lossless: `NaN` comes back as `null`, keys whose value is `undefined` are dropped, and each `createdAt` `Date` comes back as its ISO text. Those three losses are not modelled.
- Values.ToNumber, Values.Plus: model `+` and the `Number` coercion on the values the forms produce (numbers, empty or missing fields). A text operand gives `NaN`, where JavaScript concatenates. The keys of the pledge and meeting histograms are not coerced to text, as JavaScript object keys would be.
- `Store.RunKeepsIdsUnique` excludes `LOAD_DATA`, because a loaded snapshot can carry any ids.

## Findings

| source | as written | input that shows it | evidently intended | confidence | as-written member | corrected member |
|---|---|---|---|---|---|---|
| src/pages/TripSetup.jsx:233 | the default tasks are filed under `Date.now().toString()`, while the store gives the new trip a fresh UUID | any submission: the trip's id is a UUID containing `-`, and the tasks' `tripId` is all digits | the twelve default tasks carry the id of the trip just created | high, not executed | TripSetupPage.DefaultTasksMissTheirTrip | TripSetupPage.DefaultTasksJoinTheirTrip |
| src/pages/Timeline.jsx:101-105 | the toggle sends the whole timeline entry, whose `type` is `'meeting'`, as the update | completing a meeting of type `'Major Donor Meeting'` from the timeline | only the status (and later the notes) of the stored meeting change | high, not executed | TimelinePage.ToggleFromTimelineClobbersType | TimelinePage.CompleteFromTimelineKeepsMeeting |
| src/pages/Tasks.jsx:157-161 | the modal stays mounted and its effect only copies a given task, so the form is never reset; the meeting modal (src/pages/Meetings.jsx:124-136, `MeetingsPage.ModalForm`) has the same effect | edit a task, close, press "Add Task", submit unchanged | a new task starts from the blank form | medium, not executed | TasksPage.AddAfterEditCopiesTask | TasksPage.AddAfterEditAddsBlank |
