# reminderApp core, modelled in Dafny

reminderApp is an Ionic/Angular reminder application. Its users keep
customers and recurring tasks (payments, updates, custom jobs). Each task
has a frequency, and it runs through *task cycles*: periods with a start,
an end, a status (`pending`, `in_progress`, `completed`, `skipped`) and a
progress value. This project models the logic behind that, one Dafny module
per source file:

- **WebDatabase**: the browser's in-memory table store (`customers`,
  `tasks`, `task_history`) and the statement dispatcher in front of it.
  - Insert gives a record max id + 1.
  - Update rewrites the first record with the target id.
  - Delete filters by id and reports the count.
  - Select filters by id, or joins the customer name onto tasks.
  - Also covered: the batch `executeSet` and table creation at start-up.
- **TaskCycles**: the task-cycle service.
  - It picks the latest cycle of each task and synthesizes a pending cycle
    for a task that has none.
  - It filters the list by view and orders it by priority, then end date.
  - It validates status updates and builds their SET clause.
  - When a next cycle is requested, it reuses an open cycle, or creates one
    a period after the previous one.
- **ControlMapping**, **NotificationTypeService**, **NotificationTypesPage**:
  - the notification methods and their four value fields;
  - the at-most-three enabled set, with toggles rolled back when the
    service fails;
  - validators that follow the enabled set;
  - the stored settings.
- **TaskListPage**: the task management list: segment filter, sort
  comparator, deletion.
- **Translation**: key lookup with `{{name}}` placeholder substitution, and
  merging of translation maps.
- **ColorIconPicker**, **ProgressSlider**, **TaskListItemComponent**,
  **TaskListComponent**: the picker state machine and palette, the
  progress bands and dialog results, the status and type colour/icon maps,
  and the dashboard's progress and completion handling.
- **TaskTypeService**: the task-type table, including the guard that keeps
  default types from being deleted.

Shared helpers live in **Wrappers** (`Option`, `Result`), **Text** (trim,
case mapping, search, lexicographic order) and **Seqs** (a stable filter
and a stable insertion sort, proved to produce a sorted permutation).

Modelling conventions:
- Dates are integer millisecond timestamps, and "now" is a parameter.
- Adding a month or a year is given as a `Calendar` of functions; a day is
  86 400 000 ms.
- Regular-expression tests, the browser's date parsing and locale
  formatting are parameters.
- Objects whose fields the source updates are classes with `modifies`
  frames.
- Loops in the source are `while`/`for` loops with invariants, proved
  against the functions that specify them.
- Service calls that can fail (the database, the notification service) are
  boolean parameters saying whether they succeeded.

## Model

| member | source | states |
|---|---|---|
| WebDatabase.TableNamed | src/app/services/database.service.ts:318-327 | a table is recognised only when the statement contains the verb followed by that table's name, and then it is one of the three web tables |
| WebDatabase.FindIndex | src/app/services/database.service.ts:388-390 | the index found is the first record carrying the id; none means no record carries it |
| WebDatabase.FindById | src/app/services/database.service.ts:237-248 | the record found is one of the rows and carries the id; none means no record carries it |
| WebDatabase.MaxId | src/app/services/database.service.ts:329-331 | the maximum is at least every id and is attained by some record |
| WebDatabase.NewId | src/app/services/database.service.ts:329-331 | a new id is 1 for an empty table, otherwise one more than an existing id, and strictly above every id in the table |
| WebDatabase.CustomerName | src/app/services/database.service.ts:247-252 | the joined customer name is the name of the first customer whose id is the task's customerId; it is null when the customerId is falsy or no customer carries it |
| WebDatabase.Insert | src/app/services/database.service.ts:317-372 | an unknown table changes nothing and gives lastId null; otherwise exactly one record is appended, under the id one above the table's largest (1 for an empty table), returned as lastId, and every other record and table is unchanged |
| WebDatabase.Update | src/app/services/database.service.ts:374-420 | changes is 0 or 1; it is 1 exactly when the table is known and some record carries the last bound value as id; with 0 the store is unchanged |
| WebDatabase.Delete | src/app/services/database.service.ts:422-443 | with an unknown table or no values nothing changes and changes is 0; otherwise no record with the id remains, every other record stays, other tables are untouched, and changes is old length minus new length |
| WebDatabase.KindOf | src/app/services/database.service.ts:198-217 | the trimmed, upper-cased statement picks the handler of the first prefix it starts with, tried in the order SELECT, INSERT, UPDATE, DELETE (each clause an if-and-only-if); a statement with none of the four is unsupported |
| WebDatabase.Execute | src/app/services/database.service.ts:198-220 | an unsupported statement gives no rows and leaves the store as it was; a select never changes the store; the table set is kept |
| WebDatabase.RunItem | src/app/services/database.service.ts:456-462 | an item without a statement yields no rows and changes nothing; any item keeps the table set |
| WebDatabase.RunSet | src/app/services/database.service.ts:452-469 | a batch yields one result per statement and keeps the table set |
| WebDatabase.EnsureTables | src/app/services/database.service.ts:91-99 | each missing web table is added empty and existing tables are kept as they are |
| WebDatabase.Initialized | src/app/services/database.service.ts:73-109 | the store after start-up always has the three tables |
| WebDatabase.ReinitializeKeepsStore | src/app/services/database.service.ts:80-99 | loading a saved store that already has its tables gives back that store unchanged |
| WebDatabase.InsertPreservesUniqueIds | src/app/services/database.service.ts:329-365 | an insert keeps ids unique within every table |
| WebDatabase.UpdatePreservesUniqueIds | src/app/services/database.service.ts:385-399 | an update keeps ids unique |
| WebDatabase.DeletePreservesUniqueIds | src/app/services/database.service.ts:432-436 | a delete keeps ids unique |
| WebDatabase.FilterKeepsUniqueIds | src/app/services/database.service.ts:435 | filtering a table keeps its ids unique |
| WebDatabase.ExecutePreservesUniqueIds | src/app/services/database.service.ts:198-220 | any dispatched statement keeps ids unique |
| WebDatabase.RunSetPreservesUniqueIds | src/app/services/database.service.ts:452-469 | a whole batch keeps ids unique |
| WebDatabase.InsertThenDeleteRestores | src/app/services/database.service.ts:317-443 | deleting the id an insert returned restores the store exactly |
| WebDatabase.DropAppended | src/app/services/database.service.ts:435 | removing a record whose id is above all others leaves the rest in order |
| WebDatabase.InsertAppends | src/app/services/database.service.ts:329-365 | an insert into a known table appends one record whose id exceeds every id already in it, and changes nothing else |
| WebDatabase.DeleteAppended | src/app/services/database.service.ts:432-442 | deleting by the id of a last record whose id is above the others removes just that record and reports one change |
| WebDatabase.InsertThenSelectById | src/app/services/database.service.ts:299-314 | selecting by the id an insert returned yields exactly the inserted record |
| WebDatabase.NoneMatch | src/app/services/database.service.ts:302-304 | a filter matching no record gives the empty result |
| WebDatabase.UpdateRewritesOnlyTarget | src/app/services/database.service.ts:385-419 | an update that reports a change rewrites only the first record with the id, keeping its id, leaves every other record and table unchanged, and with unique ids no other record has that id |
| WebDatabase.UpdateTaskHistoryChangesNothing | src/app/services/database.service.ts:380-413 | an update of task_history leaves the store unchanged even when it reports a change |
| WebDatabase.DeleteRestores | src/app/services/database.service.ts:432-442 | deleting a record just appended under an id above every other gives back the store it was appended to, with one change |
| WebDatabase.DeleteKeepsOrder | src/app/services/database.service.ts:432-442 | after a DELETE the table holds exactly the records without the id, in their original order, each as often as before |
| WebDatabase.DeleteCountsMatches | src/app/services/database.service.ts:432-442 | the reported count is the number of records carrying the id, so 1 or 0 when ids are unique |
| WebDatabase.FilterComplement | src/app/services/database.service.ts:435-442 | kept and removed records add up to the table |
| WebDatabase.AtMostOneMatch | src/app/services/database.service.ts:432-442 | with unique ids at most one record carries an id |
| WebDatabase.WebDatabaseService.constructor | src/app/services/database.service.ts:21-33 | the service starts with the initialised store |
| WebDatabase.WebDatabaseService.SaveWebStoreToLocalStorage | src/app/services/database.service.ts:133-140 | the saved snapshot equals the store |
| WebDatabase.WebDatabaseService.InitializeEmptyWebStore | src/app/services/database.service.ts:111-131 | the store becomes the customers table holding the one sample customer and empty tasks and task_history tables, and is saved |
| WebDatabase.WebDatabaseService.InitializeWebDatabase | src/app/services/database.service.ts:73-109 | the store is rebuilt from the saved snapshot; a store that already had its tables stays as it was |
| WebDatabase.WebDatabaseService.HandleWebSelect | src/app/services/database.service.ts:222-315 | the rows returned are the select specification's rows over the store, which the lemmas SelectById, SelectWholeTable, SelectJoinOne and SelectJoinAll characterise |
| WebDatabase.SelectById | src/app/services/database.service.ts:299-307 | a select with an id filter returns exactly the records carrying the id, in table order |
| WebDatabase.SelectWholeTable | src/app/services/database.service.ts:290-314 | a select without an id filter returns the whole named table, and a statement naming no table returns no rows |
| WebDatabase.SelectJoinOne | src/app/services/database.service.ts:227-256 | the single-task join returns no rows for an unknown id, and otherwise one row with the task's id and fields plus its customer name |
| WebDatabase.SelectJoinAll | src/app/services/database.service.ts:259-288 | the all-tasks join returns one row per task; without ORDER BY row i is task i with its customer name, with ORDER BY the rows are a permutation of those, sorted by start date |
| WebDatabase.StartDateOrderTotal | src/app/services/database.service.ts:280-284 | the start-date comparison is a total preorder, so sorting by it is well defined |
| Seqs.FilterSelectsInOrder | src/app/services/database.service.ts:304 | filtering keeps exactly the elements that satisfy the predicate, at strictly increasing positions of the input |
| WebDatabase.WebDatabaseService.HandleWebInsert | src/app/services/database.service.ts:317-372 | the new store and result are Insert's |
| WebDatabase.WebDatabaseService.HandleWebUpdate | src/app/services/database.service.ts:374-420 | the new store and result are Update's |
| WebDatabase.WebDatabaseService.HandleWebDelete | src/app/services/database.service.ts:422-443 | the new store and result are Delete's |
| WebDatabase.WebDatabaseService.ExecuteWebQuery | src/app/services/database.service.ts:198-220 | the dispatcher's new store and result are Execute's, with missing values taken as none, and ids stay unique |
| WebDatabase.WebDatabaseService.ExecuteSet | src/app/services/database.service.ts:452-469 | the loop over the batch computes RunSet, one result per statement, and keeps ids unique |
| TaskCycles.Advance | src/app/services/task-cycle.service.ts:236-272 | an unknown frequency leaves the date unchanged |
| TaskCycles.AdvanceMovesForward | src/app/services/task-cycle.service.ts:236-272 | advancing never moves back, and moves strictly forward exactly for daily, weekly, monthly and yearly |
| TaskCycles.Record | src/app/services/task-cycle.service.ts:52-57 | one step of the map loop: only the cycle's task changes, and its entry never gets an earlier start |
| TaskCycles.LatestCyclesKeys | src/app/services/task-cycle.service.ts:51-57 | the map has an entry for exactly the tasks that have a cycle |
| TaskCycles.LatestCycleIsOwn | src/app/services/task-cycle.service.ts:51-57 | each task's chosen cycle is one of its own cycles |
| TaskCycles.LatestCycleIsLatest | src/app/services/task-cycle.service.ts:51-57 | the chosen cycle has the greatest start among the task's cycles |
| TaskCycles.LatestCycleIsFirst | src/app/services/task-cycle.service.ts:51-57 | among cycles with that greatest start, the first in input order is chosen |
| TaskCycles.CurrentCycle | src/app/services/task-cycle.service.ts:385-412 | the current cycle belongs to the task; there is none exactly when the task has no cycle |
| TaskCycles.CycleFor | src/app/services/task-cycle.service.ts:63-77 | a task's latest cycle is used; otherwise a pending cycle with progress 0 starting at the clock reading taken for it and ending one period later |
| TaskCycles.Assemble | src/app/services/task-cycle.service.ts:60-98 | one item per task, in task order, each built at the second clock reading |
| TaskCycles.OverdueViewMatchesFlag | src/app/services/task-cycle.service.ts:92-107 | the overdue view, read at the first clock reading, and the overdue flag, read at the later one, agree when the readings are equal; otherwise every item the view keeps is flagged, and the flagged items it drops are exactly the unfinished ones ending between the two readings |
| TaskCycles.SynthesizedCycleUpcoming | src/app/services/task-cycle.service.ts:71-111 | a synthesized cycle is upcoming exactly when the clock moved between the filter's reading and the one its start was taken from; it is flagged or viewed overdue only for an unknown frequency or a calendar that does not move forward |
| TaskCycles.Priority | src/app/services/task-cycle.service.ts:112-121 | the priority is 1, 2 or 3 |
| TaskCycles.ItemOrderTotalPreorder | src/app/services/task-cycle.service.ts:112-121 | the list comparator is a total preorder |
| TaskCycles.TaskListSorted | src/app/services/task-cycle.service.ts:99-121 | the published list is a permutation of the items the view keeps, sorted by the comparator |
| TaskCycles.TaskListMembers | src/app/services/task-cycle.service.ts:60-111 | the list holds exactly the assembled items that are in the view |
| TaskCycles.TaskListPriorityOrder | src/app/services/task-cycle.service.ts:112-121 | overdue items come first, then items in progress, then the rest, with end dates ascending within each group |
| TaskCycles.AllViewKeepsEveryTask | src/app/services/task-cycle.service.ts:99-101 | the all view lists every task |
| TaskCycles.SkippedIsRejected | src/app/services/task-cycle.service.ts:135-138 | pending, in_progress and completed are accepted and skipped is rejected |
| TaskCycles.UpdateEntries | src/app/services/task-cycle.service.ts:141-145 | the quoted status is always the first entry |
| TaskCycles.UpdateEntriesKeys | src/app/services/task-cycle.service.ts:141-145 | progress is present iff given, completedAt iff the status is completed, and progress precedes completedAt |
| TaskCycles.MoreAssignmentsCons | src/app/services/task-cycle.service.ts:148-150 | joining a longer entry list adds one comma-separated assignment |
| TaskCycles.SetClauseShape | src/app/services/task-cycle.service.ts:141-150 | the SET clause is the status assignment followed by the optional progress and completedAt assignments |
| TaskCycles.OptionalEntriesClause | src/app/services/task-cycle.service.ts:141-150 | the optional assignments render as progress then completedAt, each only when present |
| TaskCycles.Updated | src/app/services/task-cycle.service.ts:154-158 | a cycle with another id, or any cycle when the id is missing, is unchanged; the target gets the status, the progress when given, and the completion time when completed |
| TaskCycles.UpdatedAll | src/app/services/task-cycle.service.ts:154-158 | the UPDATE keeps every row's id and task, sets the status on the rows with the id, and leaves the others unchanged |
| TaskCycles.UpdatedAllWithoutId | src/app/services/task-cycle.service.ts:154-158 | an UPDATE bound to a missing id matches no row, so the cycles are unchanged |
| TaskCycles.TaskCycleService.constructor | src/app/services/task-cycle.service.ts:28-35 | the service starts with no cycles and an empty list |
| TaskCycles.TaskCycleService.LatestCycleMap | src/app/services/task-cycle.service.ts:51-57 | the loop builds exactly the latest-cycle map |
| TaskCycles.TaskCycleService.ActiveTasks | src/app/services/task-cycle.service.ts:43-44 | exactly the non-archived tasks |
| TaskCycles.TaskCycleService.LoadTaskList | src/app/services/task-cycle.service.ts:38-128 | the published list is the task-list specification for the view, filtered at the first clock reading and built at the later one |
| TaskCycles.TaskCycleService.UpdateTaskCycleStatus | src/app/services/task-cycle.service.ts:130-168 | an invalid status fails with the one error message and changes nothing; a valid one rewrites the cycles with that id (none when the id is missing) and reloads the all view |
| TaskCycles.TaskCycleService.NextCycleId | src/app/services/task-cycle.service.ts:196-212 | the next id is positive and above every cycle id |
| TaskCycles.TaskCycleService.CreateNextCycle | src/app/services/task-cycle.service.ts:170-234 | the result and the new cycles are those of NextCycle; the task list is reloaded exactly when a cycle is appended and is otherwise unchanged |
| TaskCycles.NextCycle | src/app/services/task-cycle.service.ts:170-234 | no task or no id fails and changes nothing; an open current cycle is reused and its id returned; otherwise one pending cycle with progress 0 is appended under an id above every stored id, starting a period after the previous end (or now) and lasting one period; the old cycles are kept as a prefix |
| TaskCycles.CompletedCurrentCycleIsReplaced | src/app/services/task-cycle.service.ts:179-186 | once a task's current cycle is completed, requesting the next cycle always appends a new one |
| TaskCycles.MaxCycleId | src/app/services/task-cycle.service.ts:196-212 | the maximum is at least every cycle id |
| TaskCycles.AppendFreshId | src/app/services/task-cycle.service.ts:196-216 | inserting a cycle under an id no stored cycle has keeps the cycle ids distinct |
| ControlMapping.ControlNameDomain | src/app/pages/notification-types/notification-types.page.ts:40-45 | a control name exists exactly for the four mapped keys, and is one of the form's controls |
| ControlMapping.TypeKeyDomain | src/app/pages/notification-types/notification-types.page.ts:47-52 | a type key exists exactly for the four control names, and is one of the mapped keys |
| ControlMapping.MappingsInverse | src/app/pages/notification-types/notification-types.page.ts:206-212 | the two mappings are mutually inverse |
| ControlMapping.ControlNameInjective | src/app/services/notification-type.service.ts:35-40 | distinct keys never share a control |
| NotificationTypeService.FromRow | src/app/services/notification-type.service.ts:52-65 | isEnabled and requiresValue are true iff the column is 1, order copies order_num, and the other fields are copied |
| NotificationTypeService.ValidateNotificationValue | src/app/services/notification-type.service.ts:103-110 | no value needed means valid; an empty value is invalid; no pattern means valid; otherwise the pattern decides |
| NotificationTypeService.AcceptedValueIsNonEmpty | src/app/services/notification-type.service.ts:103-110 | an accepted value for a type that needs one is never empty |
| NotificationTypeService.EnabledTypes | src/app/services/notification-type.service.ts:78-82 | exactly the enabled types |
| NotificationTypeService.EnabledTypesKeepOrder | src/app/services/notification-type.service.ts:78-82 | the enabled types keep their original order |
| NotificationTypeService.WithEnabled | src/app/services/notification-type.service.ts:92-96 | only entries with the key change, and only their flag; the length is kept |
| NotificationTypeService.SettingsDomain | src/app/services/notification-type.service.ts:123-131 | the settings only have mapped control names and non-empty values |
| NotificationTypeService.SettingsLastWins | src/app/services/notification-type.service.ts:123-131 | for repeated keys the last row wins |
| NotificationTypeService.SettingsUnset | src/app/services/notification-type.service.ts:123-131 | a control no row sets is absent |
| NotificationTypeService.SettingsAfter | src/app/services/notification-type.service.ts:123-131 | rows read later override earlier ones |
| NotificationTypeService.TypeKeys | src/app/services/notification-type.service.ts:152-158 | each control maps to an enabled key whose control it is, and every enabled mapped key is present |
| NotificationTypeService.RowsToInsert | src/app/services/notification-type.service.ts:168-178 | only non-empty values of enabled types are inserted |
| NotificationTypeService.RowsToInsertSets | src/app/services/notification-type.service.ts:168-178 | each inserted row for a control comes from a setting with that control and value |
| NotificationTypeService.RowsToInsertLast | src/app/services/notification-type.service.ts:168-178 | a setting for an enabled control with a non-empty value is inserted, and no later row sets that control |
| NotificationTypeService.EnabledKeys | src/app/services/notification-type.service.ts:146-148 | exactly the keys of the enabled rows |
| NotificationTypeService.NotificationTypeService.constructor | src/app/services/notification-type.service.ts:46-72 | the service starts from the tables, with the types loaded |
| NotificationTypeService.NotificationTypeService.LoadNotificationTypes | src/app/services/notification-type.service.ts:46-72 | the published types are the rows in order_num order, mapped |
| NotificationTypeService.NotificationTypeService.UpdateNotificationType | src/app/services/notification-type.service.ts:84-101 | the flag is written on the rows with the key and the published list changes the same way |
| NotificationTypeService.NotificationTypeService.GetNotificationSettings | src/app/services/notification-type.service.ts:112-139 | the settings only have mapped control names and non-empty values |
| NotificationTypeService.NotificationTypeService.SaveNotificationSettings | src/app/services/notification-type.service.ts:141-183 | the enabled types' stored values are replaced by the rows to insert |
| NotificationTypeService.NotificationTypeService.BuildTypeKeys | src/app/services/notification-type.service.ts:152-158 | the loop builds the control-to-key map |
| NotificationTypeService.NotificationTypeService.InsertValues | src/app/services/notification-type.service.ts:168-178 | the insert loop appends exactly the rows to insert |
| NotificationTypeService.SaveThenGet | src/app/services/notification-type.service.ts:112-183 | after a save, each saved setting of an enabled type is read back with its value |
| NotificationTypesPage.ValidatorsForType | src/app/pages/notification-types/notification-types.page.ts:214-232 | validators exist exactly for the four mapped keys, and always start with required |
| NotificationTypesPage.DefaultError | src/app/pages/notification-types/notification-types.page.ts:334-342 | "Invalid value" exactly for keys that are not mapped |
| NotificationTypesPage.ValidatorsFollowEnabledSet | src/app/pages/notification-types/notification-types.page.ts:250-261 | a control has validators exactly when its type key is enabled |
| NotificationTypesPage.RefreshedSpec | src/app/pages/notification-types/notification-types.page.ts:250-261 | refreshing a list of controls keeps the form's key set, gives each listed control its expected validators and leaves every other entry as it was |
| NotificationTypesPage.RefreshedForm | src/app/pages/notification-types/notification-types.page.ts:249-261 | after the pass over the four controls each has its type's validators when that type is enabled and none otherwise; other entries are unchanged |
| NotificationTypesPage.RefreshAll | src/app/pages/notification-types/notification-types.page.ts:250-261 | the loop over the form controls computes that refresh of all four controls |
| NotificationTypesPage.NotificationTypesPage.constructor | src/app/pages/notification-types/notification-types.page.ts:60-65 | the form starts with four empty controls and their format validators |
| NotificationTypesPage.NotificationTypesPage.Init | src/app/pages/notification-types/notification-types.page.ts:70-84 | the enabled set gains the enabled types; the saved settings are loaded into the form fields (a failed load leaves them and is reported); visibility and validators agree with the enabled set |
| NotificationTypesPage.NotificationTypesPage.LoadNotificationSettings | src/app/pages/notification-types/notification-types.page.ts:91-120 | a failed load is reported and changes nothing; saved values overwrite exactly the form fields they name, every other field and the enabled set are kept, and after a non-empty load the visibility flag and the validators follow the enabled set again |
| NotificationTypesPage.NotificationTypesPage.UpdateAdditionalFieldsVisibility | src/app/pages/notification-types/notification-types.page.ts:234-262 | visibility and validators agree with the enabled set, and no other control changes |
| NotificationTypesPage.NotificationTypesPage.OnToggleChange | src/app/pages/notification-types/notification-types.page.ts:140-204 | enabling a fourth type is refused and changes nothing; otherwise the key is toggled, or restored when the service fails; at most three stay enabled |
| NotificationTypesPage.NotificationTypesPage.ApplyToggle | src/app/pages/notification-types/notification-types.page.ts:148-167 | the key leaves the enabled set when it was in it and joins it otherwise; disabling a type that needs a value clears its control; the form stays consistent |
| NotificationTypesPage.NotificationTypesPage.RevertToggle | src/app/pages/notification-types/notification-types.page.ts:186-202 | the enabled set is restored to its state before the toggle and the form stays consistent |
| NotificationTypesPage.NotificationTypesPage.SaveSettings | src/app/pages/notification-types/notification-types.page.ts:264-286 | nothing is saved while shown fields are invalid; otherwise it is saved iff the service succeeds, and submission ends |
| TaskListPage.SegmentFilter | src/app/pages/task-management/task-list/task-list.page.ts:100-104 | pending keeps exactly the open tasks, completed exactly the done ones, and any other segment keeps all |
| TaskListPage.KeyLessStrictWeakOrder | src/app/pages/task-management/task-list/task-list.page.ts:110-136 | the sort-key comparison is a strict weak order |
| TaskListPage.ComparatorTotalPreorder | src/app/pages/task-management/task-list/task-list.page.ts:130-136 | the comparator for either direction is a total preorder |
| TaskListPage.ViewSpec | src/app/pages/task-management/task-list/task-list.page.ts:96-140 | the shown tasks are a permutation of the segment's tasks, in non-decreasing key order for asc and non-increasing otherwise |
| TaskListPage.ViewMembers | src/app/pages/task-management/task-list/task-list.page.ts:96-140 | a task is shown exactly when it is loaded and in the segment |
| TaskListPage.CustomerSortWithoutCustomersKeepsOrder | src/app/pages/task-management/task-list/task-list.page.ts:119-121 | without customer names, sorting by customer leaves the filtered order unchanged |
| TaskListPage.TaskListPage.constructor | src/app/pages/task-management/task-list/task-list.page.ts:20-26 | starts on all, sorted by start date ascending |
| TaskListPage.TaskListPage.ApplyFiltersAndSorting | src/app/pages/task-management/task-list/task-list.page.ts:96-140 | the shown list becomes the view of the loaded tasks, which are left as they are |
| TaskListPage.TaskListPage.SegmentChanged | src/app/pages/task-management/task-list/task-list.page.ts:142-145 | a missing or empty segment becomes all, and the view is recomputed |
| TaskListPage.TaskListPage.SetSort | src/app/pages/task-management/task-list/task-list.page.ts:185-189 | both sort fields are stored and the view is recomputed |
| TaskListPage.ViewWithout | src/app/pages/task-management/task-list/task-list.page.ts:253-262 | after a deletion no view, whatever its segment and sort, shows a task with the deleted id |
| TaskListPage.TaskListPage.DeleteTask | src/app/pages/task-management/task-list/task-list.page.ts:253-262 | on success every task with the id is removed and none is shown; on failure nothing changes |
| Translation.Lookup | src/app/services/translation.service.ts:53 | a missing or empty translation gives back the key, otherwise the translation |
| Translation.Placeholder | src/app/services/translation.service.ts:58 | the placeholder is the name plus four brace characters |
| Translation.SubstituteAppend | src/app/services/translation.service.ts:56-60 | parameters apply one after another, in order |
| Translation.SubstituteWithoutPlaceholders | src/app/services/translation.service.ts:56-60 | a text without the placeholders is returned unchanged |
| Translation.ReplaceFirstKeepsLaterOccurrence | src/app/services/translation.service.ts:58 | replacing a placeholder leaves its later occurrences in place, so only the first is replaced |
| Translation.TranslationService.constructor | src/app/services/translation.service.ts:11-48 | the service starts with the default translations |
| Translation.TranslationService.Translate | src/app/services/translation.service.ts:52-63 | the result is the lookup with each parameter substituted in order, and the plain lookup without parameters |
| Translation.TranslationService.T | src/app/services/translation.service.ts:66-68 | t gives the same result as translate |
| Translation.TranslationService.SetTranslations | src/app/services/translation.service.ts:71-73 | the maps are merged: new entries override and other old keys are kept |
| Translation.TranslationService.GetTranslations | src/app/services/translation.service.ts:76-78 | the copy equals the current map |
| ColorIconPicker.AvailableIcons | src/app/components/color-icon-picker/color-icon-picker.component.ts:89-98 | 24 icons, and the general list for any context other than task or customer |
| ColorIconPicker.ContextTitle | src/app/components/color-icon-picker/color-icon-picker.component.ts:100-109 | "Appearance" exactly for contexts other than task or customer |
| ColorIconPicker.DefaultIcon | src/app/components/color-icon-picker/color-icon-picker.component.ts:111-120 | only the customer context has a default other than create-outline |
| ColorIconPicker.DefaultIconIsOffered | src/app/components/color-icon-picker/color-icon-picker.component.ts:84-120 | the default icon is always among the icons offered |
| ColorIconPicker.FindColor | src/app/components/color-icon-picker/color-icon-picker.component.ts:158 | the first palette entry with the value |
| ColorIconPicker.NameIn | src/app/components/color-icon-picker/color-icon-picker.component.ts:157-160 | the first matching entry's name, or "Custom" when none matches |
| ColorIconPicker.ColorNameOfPaletteEntry | src/app/components/color-icon-picker/color-icon-picker.component.ts:54-78 | every predefined colour is named by its own entry |
| ColorIconPicker.ColorsByCategory | src/app/components/color-icon-picker/color-icon-picker.component.ts:162-164 | exactly the palette entries of that category |
| ColorIconPicker.FilterGroup | src/app/components/color-icon-picker/color-icon-picker.component.ts:162-164 | filtering a single-category group keeps it all or none |
| ColorIconPicker.FilterGroups | src/app/components/color-icon-picker/color-icon-picker.component.ts:162-164 | filtering four groups filters each group separately |
| ColorIconPicker.ColorsByCategoryGroups | src/app/components/color-icon-picker/color-icon-picker.component.ts:54-78 | the category filter splits by palette group |
| ColorIconPicker.ColorsByCategoryPartitionsPalette | src/app/components/color-icon-picker/color-icon-picker.component.ts:162-168 | each category gives its own group in order, and an unknown category gives none |
| ColorIconPicker.CategoryDisplayName | src/app/components/color-icon-picker/color-icon-picker.component.ts:170-183 | unknown categories are echoed; known ones have their first letter upper-cased and the rest kept |
| ColorIconPicker.ColorIconPickerComponent.constructor | src/app/components/color-icon-picker/color-icon-picker.component.ts:14-23 | the default icon, colour and context, with both pickers closed |
| ColorIconPicker.ColorIconPickerComponent.Init | src/app/components/color-icon-picker/color-icon-picker.component.ts:82-87 | an empty or create-outline icon becomes the context default, which is offered; any other icon is kept |
| ColorIconPicker.ColorIconPickerComponent.SelectIcon | src/app/components/color-icon-picker/color-icon-picker.component.ts:131-135 | the icon is set and emitted, and the icon picker closes |
| ColorIconPicker.ColorIconPickerComponent.SelectColor | src/app/components/color-icon-picker/color-icon-picker.component.ts:137-141 | the colour is set and emitted, and the colour picker closes |
| ColorIconPicker.ColorIconPickerComponent.ToggleIconPicker | src/app/components/color-icon-picker/color-icon-picker.component.ts:143-148 | the icon picker flips, the colour picker closes when it opens, and the two are never both open |
| ColorIconPicker.ColorIconPickerComponent.ToggleColorPicker | src/app/components/color-icon-picker/color-icon-picker.component.ts:150-155 | the colour picker flips, the icon picker closes when it opens, and the two are never both open |
| ProgressSlider.ProgressColor | src/app/components/progress-slider/progress-slider.component.ts:134-139 | success from 100, primary from 75, warning from 50, medium below, each iff in its band |
| ProgressSlider.ProgressColorMonotone | src/app/components/progress-slider/progress-slider.component.ts:134-139 | more progress never shows a lower band |
| ProgressSlider.ProgressIcon | src/app/components/progress-slider/progress-slider.component.ts:141-144 | the checkmark iff progress is at least 100, the trend icon otherwise |
| ProgressSlider.IconAgreesWithColor | src/app/components/progress-slider/progress-slider.component.ts:134-144 | the checkmark shows exactly when the colour is success |
| ProgressSlider.ProgressSliderComponent.constructor | src/app/components/progress-slider/progress-slider.component.ts:23-24 | progress starts at 0 and the dialog is open |
| ProgressSlider.ProgressSliderComponent.Init | src/app/components/progress-slider/progress-slider.component.ts:40-45 | both progress fields take the cycle's progress, or 0 |
| ProgressSlider.ProgressSliderComponent.SetProgress | src/app/components/progress-slider/progress-slider.component.ts:51-61 | only the edited progress changes |
| ProgressSlider.ProgressSliderComponent.CompleteTask | src/app/components/progress-slider/progress-slider.component.ts:84-89 | closes with complete at 100 |
| ProgressSlider.ProgressSliderComponent.OnSave | src/app/components/progress-slider/progress-slider.component.ts:113-118 | closes with update_progress and the edited progress |
| ProgressSlider.ProgressSliderComponent.OnCancel | src/app/components/progress-slider/progress-slider.component.ts:121-123 | closes with no data and the cancel role |
| ProgressSlider.ProgressSliderComponent.OnKeyDown | src/app/components/progress-slider/progress-slider.component.ts:126-132 | Escape cancels and any other key does nothing |
| TaskListItemComponent.StatusColor | src/app/pages/task-management/task-list/components/task-list-item.component.ts:19-27 | medium exactly for pending or an unknown status, and always one of the four colours (also src/app/pages/task-list/task-list.component.ts:47-55) |
| TaskListItemComponent.StatusIcon | src/app/pages/task-management/task-list/components/task-list-item.component.ts:29-37 | help-outline exactly for an unknown status (also src/app/pages/task-list/task-list.component.ts:57-65) |
| TaskListItemComponent.StatusIconInjective | src/app/pages/task-management/task-list/components/task-list-item.component.ts:29-37 | distinct known statuses have distinct icons |
| TaskListItemComponent.TypeColor | src/app/pages/task-management/task-list/components/task-list-item.component.ts:39-46 | medium exactly when the lower-cased type is none of payment, update and custom (also src/app/pages/task-list/task-list.component.ts:67-74) |
| TaskListItemComponent.TypeColorIgnoresCase | src/app/pages/task-management/task-list/components/task-list-item.component.ts:40 | the type colour ignores case |
| TaskListItemComponent.DayText | src/app/pages/task-management/task-list/components/task-list-item.component.ts:58-63 | Today on the current day, Tomorrow on the next day, and the local date otherwise |
| TaskListItemComponent.FormatDate | src/app/pages/task-management/task-list/components/task-list-item.component.ts:48-65 | "No date" for an empty value, "Invalid date" when it does not parse, otherwise the day text, a space and the local time |
| TaskListItemComponent.FormatDateToday | src/app/pages/task-management/task-list/components/task-list-item.component.ts:58-63 | a valid date's text ends with its time, and starts with "Today " on the current day |
| TaskListComponent.CompletionNotification | src/app/pages/task-list/task-list.component.ts:199-205 | the completion notice is titled Task Completed, names the task first and carries its id |
| TaskListComponent.CompletionToasts | src/app/pages/task-list/task-list.component.ts:206-228 | at most two toasts: the warning exactly when the notification failed, the failure toast exactly when the next cycle was refused |
| TaskListComponent.TaskListComponentState.constructor | src/app/pages/task-list/task-list.component.ts:22 | starts on the all view with no toasts or notifications |
| TaskListComponent.TaskListComponentState.OnViewChange | src/app/pages/task-list/task-list.component.ts:42-45 | the view is stored and the list reloaded for it |
| TaskListComponent.TaskListComponentState.UpdateProgress | src/app/pages/task-list/task-list.component.ts:118-153 | only progress in 0..100 is forwarded, with the cycle's current status kept, and anything else changes nothing; a status the service refuses changes neither cycles nor list; a forwarded update rewrites the cycles with the item's id (none when the cycle has no id) and reloads the list |
| TaskListComponent.TaskListComponentState.UpdateStatus | src/app/pages/task-list/task-list.component.ts:192-230 | a next cycle is requested iff the status is completed; a refused status shows the failure toast and changes neither cycles nor list; another valid status rewrites the cycles with the item's id (none when it has no id) and reloads the list; completion does that and then requests the next cycle, sends the notice and warns when it fails |
| TaskListComponent.TaskListComponentState.AfterCompletion | src/app/pages/task-list/task-list.component.ts:196-219 | the completion notification is sent, the toasts are those of CompletionToasts, the cycles become those of NextCycle, so one is created exactly when the task has an id and no open cycle exists, and the list is reloaded exactly when one is created |
| TaskTypeService.InsertParams | src/app/services/task-type.service.ts:37-44 | five bound values |
| TaskTypeService.UpdateParams | src/app/services/task-type.service.ts:46-52 | six bound values, the id last |
| TaskTypeService.InsertParamsFillColumns | src/app/services/task-type.service.ts:37-44 | name, description, isDefault, icon and colour go to their own columns, in that order |
| TaskTypeService.UpdateParamsFillColumns | src/app/services/task-type.service.ts:46-52 | all five columns are written, a missing field as NULL |
| TaskTypeService.SqlLessStrictWeakOrder | src/app/services/task-type.service.ts:26 | the ORDER BY comparison is a strict weak order |
| TaskTypeService.ByNameTotalPreorder | src/app/services/task-type.service.ts:26 | the name order is a total preorder |
| TaskTypeService.SortedByNameSpec | src/app/services/task-type.service.ts:24-29 | the loaded list is a permutation of the table, ordered by name |
| TaskTypeService.MaxTypeId | src/app/services/task-type.service.ts:38-43 | the maximum is at least every id |
| TaskTypeService.NextTypeId | src/app/services/task-type.service.ts:38-43 | the id the insert assigns is positive and above every id |
| TaskTypeService.UpdateRow | src/app/services/task-type.service.ts:47-50 | only the row with the id gets the new columns, and the id is kept |
| TaskTypeService.UpdateRows | src/app/services/task-type.service.ts:47-50 | the statement applies to every row alike |
| TaskTypeService.WithoutId | src/app/services/task-type.service.ts:61 | exactly the rows with another id remain |
| TaskTypeService.WithoutIdKeepsUniqueIds | src/app/services/task-type.service.ts:61 | a delete keeps ids unique |
| TaskTypeService.FindType | src/app/services/task-type.service.ts:56-57 | the first row with the id |
| TaskTypeService.ProtectedIffDefaultRow | src/app/services/task-type.service.ts:56-59 | a type is protected exactly when its row has isDefault 1; a missing row is not |
| TaskTypeService.AddedTypeProtection | src/app/services/task-type.service.ts:37-63 | an added type is found under its new id and is protected iff it was added as a default |
| TaskTypeService.UpdatedTypeReadsBack | src/app/services/task-type.service.ts:46-52 | after an update the type reads back the patch, missing fields as NULL |
| TaskTypeService.TaskTypeServiceState.constructor | src/app/services/task-type.service.ts:20-22 | the service starts with the table loaded |
| TaskTypeService.TaskTypeServiceState.LoadTaskTypes | src/app/services/task-type.service.ts:24-29 | the published list is the table ordered by name |
| TaskTypeService.TaskTypeServiceState.GetTaskTypes | src/app/services/task-type.service.ts:31-35 | the list returned is the table ordered by name |
| TaskTypeService.TaskTypeServiceState.AddTaskType | src/app/services/task-type.service.ts:37-44 | one row with a fresh id is appended and its id returned, and the list is reloaded |
| TaskTypeService.TaskTypeServiceState.UpdateTaskType | src/app/services/task-type.service.ts:46-52 | all five columns of the row with the id are rewritten, and the list is reloaded |
| TaskTypeService.TaskTypeServiceState.DeleteTaskType | src/app/services/task-type.service.ts:54-63 | a default type fails with the error and changes nothing; otherwise exactly the rows with the id are removed and the list is reloaded |

## Left out

- Native SQLite: opening the database, the schema, and the native branches
  of `executeQuery`/`executeSet`. These are plugin calls. The task-type
  service runs against a `task_types` table whose new ids are max + 1; the
  web store has no such table.
- localStorage and JSON: a saved store is an `Option<Store>` snapshot.
  Serialisation round-trips and parse errors are not modelled.
- Values in the web store are null, undefined, numbers, text and booleans.
  JavaScript's loose comparison between number and text ids is taken as
  strict equality.
- Property lookups on plain objects ignore inherited keys such as
  `constructor`.
- Trimming and case mapping cover ASCII only. Unicode whitespace and case
  folding are not modelled. String comparison orders Unicode scalar
  values, which matches JavaScript's UTF-16 code-unit order only inside
  the Basic Multilingual Plane.
- Dates are integer timestamps. Invalid dates, time zones and daylight
  saving time are not modelled. ISO-string comparisons in SQL and in the
  task list are taken to agree with timestamp order. A day is a fixed
  86 400 000 ms. Months and years come from the `Calendar` parameter.
- Regular-expression and e-mail validators are named values. The test of
  a pattern is a parameter.
- `String.replace` special `$` patterns in replacement values are not
  modelled.
- Parameters are substituted in the order of a sequence. That order stands
  for the key order of the source's parameter object.
- Progress values are integers. Fractions, and the NaN that a parse of the
  slider value can give, are not modelled. A non-number reaching
  `updateProgress` is `None`.
- Toasts, alerts, modals, action sheets, loading spinners and routing are
  left out, except the toast messages that `updateStatus` shows, which are
  a field.
- `trackBy` functions are left out.
- The Observable subjects are plain fields.
- Asynchronous interleavings: every awaited call is one sequential step.
- `TaskCycles.TaskCycleService.LoadTaskList`: the clock is read twice. The
  first reading, `now`, is the one the view filter compares against. All
  later readings (the synthesized cycle's start and end, the overdue flag
  and the days since completion, task by task) are taken as one instant,
  `later`. The status update's completion time and the reload that follows
  share the instant `now`.
- Failures of the database inside the task-cycle, notification-type and
  task-type services are not modelled. Only the errors these services
  raise themselves are.
- The notification service, the focus-trap service, the task and customer
  services, the sample-data service and the zip script are not part of
  this model.
- The SQL `WHERE isArchived = 0` filter of `loadTaskList` is modelled by an
  `archived` flag on tasks.
- `createNextCycle` checks the new row after inserting it. The insert is
  taken to succeed, so that check is not modelled.
- `TaskListComponent.TaskListComponentState.UpdateProgress`: the promise
  returned by the service is not awaited. The failure path is the
  service's refusal of an invalid status.
- `TaskListComponent.TaskListComponentState.UpdateStatus`: the dashboard's
  loading state is not described. The notification carries only title,
  body and task id; its type and customer id are not modelled.
- The tables `task_cycles`, `notification_types`, `notification_values`
  and `task_types` are not created by the schema of
  `database.service.ts:151-182`, nor by the web store, which holds only
  `customers`, `tasks` and `task_history`. The cycle, notification-type
  and task-type services are modelled as if a SQL database held those
  tables. On the web store a select from them gives no rows and an insert
  into them reports no new id; that outcome is not modelled.
- `NotificationTypesPage.NotificationTypesPage.LoadNotificationSettings`:
  the failure toast is the `failed` result; the touched/untouched display
  state of the form controls is not modelled.
- The `formatDate` of the dashboard
  component (`task-list.component.ts`), which only calls
  `toLocaleDateString`, is locale formatting and is not modelled.
- `WebDatabase.WebDatabaseService.HandleWebSelect`: the join-all variant
  orders by start date through a date-parsing parameter. Ties between
  equal start dates keep store order.
- `TaskTypeService.SortedByNameSpec`: rows with equal names keep table
  order. SQLite gives no such promise.
- `NotificationTypesPage.NotificationTypesPage.OnToggleChange`: when an
  enabled type with a value is disabled, its field is cleared before the
  service call. A failed call then restores the key but not the cleared
  value, and the contract states exactly that.
- The default-type guard of the task-types page is not part of this model.
  It repeats the service guard behind an alert.
