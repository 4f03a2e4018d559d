/** The scheduling rules of `TaskCycleService`: which cycle is current for
    each task, how the task list is assembled, filtered by view and ordered,
    how a status update is validated and written, and when a new cycle is
    created and with which dates.

    Dates are millisecond timestamps (`int`); the current time is a
    parameter; adding calendar months and years, and printing a timestamp in
    ISO form, are supplied as a `Calendar`. */
module TaskCycles {
  import opened Wrappers
  import opened Text
  import Seqs

  const DAY_MS := 86_400_000

  /** Calendar arithmetic the runtime's `Date` provides. */
  datatype Calendar = Calendar(addMonth: int -> int, addYear: int -> int, toIso: int -> string)

  /** A calendar whose month and year steps move time forward. */
  ghost predicate MovesForward(cal: Calendar) {
    forall d :: cal.addMonth(d) > d && cal.addYear(d) > d
  }

  predicate KnownFrequency(frequency: string) {
    frequency in {"daily", "weekly", "monthly", "yearly"}
  }

  /** `calculateNextCycleStart` and `calculateCycleEnd`, which have the same
      body: step the date forward by the task's frequency; any other
      frequency leaves it where it is. */
  function Advance(date: int, frequency: string, cal: Calendar): (r: int)
    ensures !KnownFrequency(frequency) ==> r == date
  {
    match frequency
    case "daily" => date + DAY_MS
    case "weekly" => date + 7 * DAY_MS
    case "monthly" => cal.addMonth(date)
    case "yearly" => cal.addYear(date)
    case _ => date
  }

  /** With a forward-moving calendar a cycle is non-empty exactly when the
      frequency is one of the four known ones. */
  lemma AdvanceMovesForward(date: int, frequency: string, cal: Calendar)
    requires MovesForward(cal)
    ensures Advance(date, frequency, cal) >= date
    ensures Advance(date, frequency, cal) > date <==> KnownFrequency(frequency)
  {
  }

  /** A row of `task_cycles` (or a cycle synthesized for a task without
      one, which has no id). */
  datatype Cycle = Cycle(id: Option<int>, taskId: int, start: int, end: int,
                         status: string, progress: int, completedAt: Option<int>)

  /** The columns of a task row the task list carries along. */
  datatype Task = Task(id: int, title: string, taskType: string, frequency: string, archived: bool)

  datatype TaskListItem = TaskListItem(task: Task, cycle: Cycle, isOverdue: bool,
                                       nextDueDate: int, daysSinceLastCompletion: Option<int>)

  // ---------------------------------------------------------------------
  // The latest cycle of each task

  /** One turn of the loop over all cycles: a cycle replaces the one
      recorded for its task when none is recorded yet or when it starts
      strictly later. */
  function Record(m: map<int, Cycle>, c: Cycle): (r: map<int, Cycle>)
    ensures r.Keys == m.Keys + {c.taskId}
    ensures forall t :: t in m && t != c.taskId ==> r[t] == m[t]
    ensures r[c.taskId] == c || (c.taskId in m && r[c.taskId] == m[c.taskId] && c.start <= m[c.taskId].start)
    ensures c.taskId in m ==> r[c.taskId].start >= m[c.taskId].start
  {
    if c.taskId !in m || c.start > m[c.taskId].start then m[c.taskId := c] else m
  }

  /** The map the loop builds from all cycles. */
  function LatestCycles(cycles: seq<Cycle>): map<int, Cycle>
    decreases |cycles|
  {
    if |cycles| == 0 then map[] else Record(LatestCycles(cycles[..|cycles| - 1]), cycles[|cycles| - 1])
  }

  /** The map has an entry for exactly the tasks that have a cycle. */
  lemma {:induction false} LatestCyclesKeys(cycles: seq<Cycle>, t: int)
    ensures t in LatestCycles(cycles) <==> exists i :: 0 <= i < |cycles| && cycles[i].taskId == t
    decreases |cycles|
  {
    if |cycles| > 0 {
      var n := |cycles| - 1;
      var prefix := cycles[..n];
      LatestCyclesKeys(prefix, t);
      if t in LatestCycles(prefix) {
        var i :| 0 <= i < n && prefix[i].taskId == t;
        assert cycles[i].taskId == t;
      }
      if t !in LatestCycles(cycles) {
        forall i | 0 <= i < |cycles| ensures cycles[i].taskId != t {
          if i < n { assert prefix[i] == cycles[i]; }
        }
      }
    }
  }

  /** The entry for a task is one of that task's cycles. */
  lemma {:induction false} LatestCycleIsOwn(cycles: seq<Cycle>, t: int)
    requires t in LatestCycles(cycles)
    ensures LatestCycles(cycles)[t] in cycles && LatestCycles(cycles)[t].taskId == t
    decreases |cycles|
  {
    var n := |cycles| - 1;
    var prefix := cycles[..n];
    assert cycles == prefix + [cycles[n]];
    if t != cycles[n].taskId || LatestCycles(cycles)[t] != cycles[n] {
      LatestCycleIsOwn(prefix, t);
    }
  }

  /** No cycle of the task starts later than its entry. */
  lemma {:induction false} LatestCycleIsLatest(cycles: seq<Cycle>, t: int)
    requires t in LatestCycles(cycles)
    ensures forall j :: 0 <= j < |cycles| && cycles[j].taskId == t ==> cycles[j].start <= LatestCycles(cycles)[t].start
    decreases |cycles|
  {
    var n := |cycles| - 1;
    var prefix := cycles[..n];
    var m0 := LatestCycles(prefix);
    LatestCyclesKeys(prefix, t);
    if t in m0 {
      LatestCycleIsLatest(prefix, t);
    }
    forall j | 0 <= j < |cycles| && cycles[j].taskId == t ensures cycles[j].start <= LatestCycles(cycles)[t].start {
      if j < n {
        assert prefix[j] == cycles[j];
      }
    }
  }

  /** Of the task's cycles sharing the greatest start, the entry is the
      first: it occurs no later than any of them. */
  lemma LatestCycleIsFirst(cycles: seq<Cycle>, t: int)
    requires t in LatestCycles(cycles)
    ensures forall j :: 0 <= j < |cycles| && cycles[j].taskId == t && cycles[j].start == LatestCycles(cycles)[t].start ==>
              LatestCycles(cycles)[t] in cycles[..j + 1]
  {
    forall j | 0 <= j < |cycles| && cycles[j].taskId == t && cycles[j].start == LatestCycles(cycles)[t].start
      ensures LatestCycles(cycles)[t] in cycles[..j + 1]
    {
      LatestCycleIsFirstAt(cycles, t, j);
    }
  }

  /** The same for one cycle `j` of the task: a later cycle replaces the
      entry only when it starts strictly later, so the entry keeps the
      first of the cycles with the greatest start. */
  lemma {:induction false} LatestCycleIsFirstAt(cycles: seq<Cycle>, t: int, j: int)
    requires t in LatestCycles(cycles)
    requires 0 <= j < |cycles| && cycles[j].taskId == t && cycles[j].start == LatestCycles(cycles)[t].start
    ensures LatestCycles(cycles)[t] in cycles[..j + 1]
    decreases |cycles|
  {
    var n := |cycles| - 1;
    if j == n {
      assert cycles[..j + 1] == cycles;
      LatestCycleIsOwn(cycles, t);
    } else {
      var prefix := cycles[..n];
      var m0 := LatestCycles(prefix);
      assert prefix[j] == cycles[j];
      LatestCyclesKeys(prefix, t);
      LatestCycleIsLatest(prefix, t);
      if cycles[n].taskId == t && cycles[n].start > m0[t].start {
        assert false;
      }
      assert LatestCycles(cycles)[t] == m0[t];
      LatestCycleIsFirstAt(prefix, t, j);
      assert prefix[..j + 1] == cycles[..j + 1];
    }
  }

  /** The current cycle of one task (`getCurrentCycle`: its cycle with the
      latest start). */
  function CurrentCycle(cycles: seq<Cycle>, taskId: int): (r: Option<Cycle>)
    ensures r.Some? ==> r.value in cycles && r.value.taskId == taskId
    ensures r.None? <==> forall i :: 0 <= i < |cycles| ==> cycles[i].taskId != taskId
  {
    LatestCyclesKeys(cycles, taskId);
    if taskId in LatestCycles(cycles) then
      LatestCycleIsOwn(cycles, taskId);
      Some(LatestCycles(cycles)[taskId])
    else None
  }

  // ---------------------------------------------------------------------
  // Assembling, filtering and ordering the task list

  /** The cycle shown for a task: its latest one, or a pending cycle that
      starts at the instant `at` of the clock reading taken for it when it
      has none. */
  function CycleFor(latest: map<int, Cycle>, task: Task, at: int, cal: Calendar): (c: Cycle)
    ensures task.id in latest ==> c == latest[task.id]
    ensures task.id !in latest ==>
      c.id.None? && c.taskId == task.id && c.status == "pending" && c.progress == 0 &&
      c.start == at && c.end == Advance(at, task.frequency, cal) && c.completedAt.None?
  {
    if task.id in latest then latest[task.id]
    else Cycle(None, task.id, at, Advance(at, task.frequency, cal), "pending", 0, None)
  }

  /** Overdue: the cycle ended before now and is not completed. */
  predicate Overdue(c: Cycle, now: int) {
    c.end < now && c.status != "completed"
  }

  /** Whole days since the cycle was completed (`Math.floor` of a division
      by a positive number, which is Dafny's division). */
  function DaysSince(now: int, completedAt: Option<int>): Option<int> {
    match completedAt
    case None => None
    case Some(t) => Some((now - t) / DAY_MS)
  }

  /** One item of the list. The synthesized cycle, the overdue flag and
      the days since completion all read the clock while the items are
      built, after the reading the view filter uses; `later` is that
      second instant. */
  function ToItem(latest: map<int, Cycle>, task: Task, later: int, cal: Calendar): TaskListItem {
    var c := CycleFor(latest, task, later, cal);
    TaskListItem(task, c, Overdue(c, later), c.end, DaysSince(later, c.completedAt))
  }

  function Assemble(latest: map<int, Cycle>, tasks: seq<Task>, later: int, cal: Calendar): (items: seq<TaskListItem>)
    ensures |items| == |tasks|
    ensures forall i :: 0 <= i < |tasks| ==> items[i] == ToItem(latest, tasks[i], later, cal)
  {
    seq(|tasks|, i requires 0 <= i < |tasks| => ToItem(latest, tasks[i], later, cal))
  }

  /** The view filter; any view other than the three named ones keeps
      everything. */
  predicate InView(view: string, item: TaskListItem, now: int) {
    var c := item.cycle;
    match view
    case "overdue" => c.end < now && c.status != "completed"
    case "in_progress" => c.status == "in_progress"
    case "upcoming" => c.start > now && c.status == "pending"
    case _ => true
  }

  /** The `overdue` view (clock reading `now`) and the overdue flag (the
      later reading) agree when the two readings are equal. Otherwise every
      item the view keeps is flagged, and the flagged items it drops are
      exactly the unfinished ones ending between the two readings. */
  lemma OverdueViewMatchesFlag(latest: map<int, Cycle>, task: Task, now: int, later: int, cal: Calendar)
    ensures var item := ToItem(latest, task, later, cal);
            now == later ==> InView("overdue", item, now) == item.isOverdue
    ensures var item := ToItem(latest, task, later, cal);
            now <= later && InView("overdue", item, now) ==> item.isOverdue
    ensures var item := ToItem(latest, task, later, cal);
            item.isOverdue && !InView("overdue", item, now) <==>
              item.cycle.status != "completed" && now <= item.cycle.end < later
  {
  }

  /** A task with no cycle is shown with a pending cycle that starts at the
      later reading, so it is in the `upcoming` view exactly when the clock
      moved between the two readings. It is flagged overdue, or kept by the
      `overdue` view, only for an unknown frequency or a calendar that does
      not move forward. */
  lemma SynthesizedCycleUpcoming(latest: map<int, Cycle>, task: Task, now: int, later: int, cal: Calendar)
    requires task.id !in latest
    ensures InView("upcoming", ToItem(latest, task, later, cal), now) <==> now < later
    ensures ToItem(latest, task, later, cal).isOverdue ==> !KnownFrequency(task.frequency) || !MovesForward(cal)
    ensures now <= later && InView("overdue", ToItem(latest, task, later, cal), now) ==>
      !KnownFrequency(task.frequency) || !MovesForward(cal)
  {
    if KnownFrequency(task.frequency) && MovesForward(cal) {
      AdvanceMovesForward(later, task.frequency, cal);
    }
  }

  /** 1 for an overdue item, 2 for one in progress, 3 otherwise. */
  function Priority(item: TaskListItem): (p: int)
    ensures 1 <= p <= 3
  {
    if item.isOverdue then 1 else if item.cycle.status == "in_progress" then 2 else 3
  }

  /** The comparator: `ItemOrder(a, b)` when the comparator does not put
      `b` before `a` (lower priority number first, then earlier end). */
  predicate ItemOrder(a: TaskListItem, b: TaskListItem) {
    Priority(a) < Priority(b) || (Priority(a) == Priority(b) && a.cycle.end <= b.cycle.end)
  }

  lemma ItemOrderTotalPreorder()
    ensures Seqs.TotalPreorder(ItemOrder)
  {
  }

  /** The list `loadTaskList` publishes for the given tasks and cycles. */
  function TaskList(tasks: seq<Task>, cycles: seq<Cycle>, view: string, now: int, later: int, cal: Calendar): seq<TaskListItem> {
    var items := Assemble(LatestCycles(cycles), tasks, later, cal);
    Seqs.SortBy(ItemOrder, Seqs.Filter((item: TaskListItem) => InView(view, item, now), items))
  }

  /** The published list is a permutation of the items the view keeps,
      ordered by the comparator. */
  lemma TaskListSorted(tasks: seq<Task>, cycles: seq<Cycle>, view: string, now: int, later: int, cal: Calendar)
    ensures var items := Assemble(LatestCycles(cycles), tasks, later, cal);
            var list := TaskList(tasks, cycles, view, now, later, cal);
            && multiset(list) == multiset(Seqs.Filter((item: TaskListItem) => InView(view, item, now), items))
            && Seqs.SortedBy(ItemOrder, list)
  {
    var items := Assemble(LatestCycles(cycles), tasks, later, cal);
    ItemOrderTotalPreorder();
    Seqs.SortBySorted(ItemOrder, Seqs.Filter((item: TaskListItem) => InView(view, item, now), items));
  }

  /** The published list holds exactly the assembled items (each task's
      latest cycle or a synthesized one) that are in the view. */
  lemma TaskListMembers(tasks: seq<Task>, cycles: seq<Cycle>, view: string, now: int, later: int, cal: Calendar)
    ensures var list := TaskList(tasks, cycles, view, now, later, cal);
            forall i :: 0 <= i < |list| ==> InView(view, list[i], now) && list[i] in Assemble(LatestCycles(cycles), tasks, later, cal)
    ensures var items := Assemble(LatestCycles(cycles), tasks, later, cal);
            forall i :: 0 <= i < |tasks| && InView(view, items[i], now) ==> items[i] in TaskList(tasks, cycles, view, now, later, cal)
  {
    var items := Assemble(LatestCycles(cycles), tasks, later, cal);
    var kept := Seqs.Filter((item: TaskListItem) => InView(view, item, now), items);
    var list := TaskList(tasks, cycles, view, now, later, cal);
    assert multiset(list) == multiset(kept);
    forall i | 0 <= i < |list| ensures InView(view, list[i], now) && list[i] in items {
      assert list[i] in multiset(kept);
    }
    forall i | 0 <= i < |tasks| && InView(view, items[i], now) ensures items[i] in list {
      assert items[i] in kept;
      assert items[i] in multiset(list);
    }
  }

  /** In the published list overdue items come first, then items in
      progress, then the rest; within a group end dates ascend. */
  lemma TaskListPriorityOrder(tasks: seq<Task>, cycles: seq<Cycle>, view: string, now: int, later: int, cal: Calendar)
    ensures var list := TaskList(tasks, cycles, view, now, later, cal);
            forall i, j :: 0 <= i < j < |list| ==>
              Priority(list[i]) <= Priority(list[j]) &&
              (Priority(list[i]) == Priority(list[j]) ==> list[i].cycle.end <= list[j].cycle.end)
  {
    TaskListSorted(tasks, cycles, view, now, later, cal);
  }

  /** The `all` view keeps every task. */
  lemma AllViewKeepsEveryTask(tasks: seq<Task>, cycles: seq<Cycle>, now: int, later: int, cal: Calendar)
    ensures |TaskList(tasks, cycles, "all", now, later, cal)| == |tasks|
  {
    var items := Assemble(LatestCycles(cycles), tasks, later, cal);
    Seqs.FilterAll((item: TaskListItem) => InView("all", item, now), items);
  }

  // ---------------------------------------------------------------------
  // Status updates

  const UPDATE_FAILED := "Failed to update task cycle status"
  const CREATE_FAILED := "Failed to create new cycle for task"

  /** The statuses a cycle may be set to; `skipped`, although a declared
      status, is not among them. */
  predicate ValidStatus(status: string) {
    status in ["pending", "in_progress", "completed"]
  }

  lemma SkippedIsRejected()
    ensures !ValidStatus("skipped")
    ensures ValidStatus("pending") && ValidStatus("in_progress") && ValidStatus("completed")
  {
  }

  /** The entries of the `updates` object, in insertion order. */
  function UpdateEntries(status: string, progress: Option<int>, nowIso: string): (e: seq<(string, string)>)
    ensures |e| >= 1 && e[0] == ("status", "'" + status + "'")
  {
    [("status", "'" + status + "'")] + OptionalEntries(status, progress, nowIso)
  }

  /** Progress is present iff given, completedAt iff the status is
      completed, and progress comes before completedAt. */
  lemma UpdateEntriesKeys(status: string, progress: Option<int>, nowIso: string)
    ensures var e := UpdateEntries(status, progress, nowIso);
      && ((exists i :: 0 <= i < |e| && e[i].0 == "progress") <==> progress.Some?)
      && ((exists i :: 0 <= i < |e| && e[i].0 == "completedAt") <==> status == "completed")
      && (forall i, j :: 0 <= i < |e| && 0 <= j < |e| && e[i].0 == "progress" && e[j].0 == "completedAt" ==> i < j)
  {
    var e := UpdateEntries(status, progress, nowIso);
    assert progress.Some? ==> e[1].0 == "progress";
    assert status == "completed" ==> e[|e| - 1].0 == "completedAt";
  }

  function Assignment(entry: (string, string)): string {
    entry.0 + " = " + entry.1
  }

  /** `key = value` for each entry, joined with `, `. */
  function SetClause(entries: seq<(string, string)>): string {
    if |entries| == 0 then "" else Assignment(entries[0]) + MoreAssignments(entries[1..])
  }

  function MoreAssignments(entries: seq<(string, string)>): string
    decreases |entries|
  {
    if |entries| == 0 then "" else ", " + Assignment(entries[0]) + MoreAssignments(entries[1..])
  }

  /** The clause as it should read, written out directly. */
  function ExpectedSetClause(status: string, progress: Option<int>, nowIso: string): string {
    "status = '" + status + "'"
      + (if progress.Some? then ", progress = " + IntToString(progress.value) else "")
      + (if status == "completed" then ", completedAt = '" + nowIso + "'" else "")
  }

  lemma MoreAssignmentsCons(x: (string, string), rest: seq<(string, string)>)
    ensures MoreAssignments([x] + rest) == ", " + Assignment(x) + MoreAssignments(rest)
  {
    assert ([x] + rest)[1..] == rest;
  }

  /** The SET clause written for a status update: the quoted status, then
      the progress when one is given, then the quoted completion time when
      the status is `completed`. */
  lemma SetClauseShape(status: string, progress: Option<int>, nowIso: string)
    ensures SetClause(UpdateEntries(status, progress, nowIso)) == ExpectedSetClause(status, progress, nowIso)
  {
    var e := UpdateEntries(status, progress, nowIso);
    assert e[1..] == OptionalEntries(status, progress, nowIso);
    StatusAssignment(status);
    OptionalEntriesClause(status, progress, nowIso);
  }

  function OptionalEntries(status: string, progress: Option<int>, nowIso: string): seq<(string, string)> {
    (if progress.Some? then [("progress", IntToString(progress.value))] else [])
      + (if status == "completed" then [("completedAt", "'" + nowIso + "'")] else [])
  }

  lemma StatusAssignment(status: string)
    ensures Assignment(("status", "'" + status + "'")) == "status = '" + status + "'"
  {
    assert "status" + " = " + "'" == "status = '";
  }

  lemma ProgressAssignment(value: string)
    ensures ", " + Assignment(("progress", value)) == ", progress = " + value
  {
    assert ", " + "progress" + " = " == ", progress = ";
  }

  lemma CompletedAtAssignment(nowIso: string)
    ensures ", " + Assignment(("completedAt", "'" + nowIso + "'")) == ", completedAt = '" + nowIso + "'"
  {
    assert ", " + "completedAt" + " = " + "'" == ", completedAt = '";
  }

  lemma OptionalEntriesClause(status: string, progress: Option<int>, nowIso: string)
    ensures MoreAssignments(OptionalEntries(status, progress, nowIso)) ==
      (if progress.Some? then ", progress = " + IntToString(progress.value) else "")
      + (if status == "completed" then ", completedAt = '" + nowIso + "'" else "")
  {
    var last := if status == "completed" then [("completedAt", "'" + nowIso + "'")] else [];
    var tail := if status == "completed" then ", completedAt = '" + nowIso + "'" else "";
    assert MoreAssignments(last) == tail by {
      if status == "completed" {
        assert last == [("completedAt", "'" + nowIso + "'")] + [];
        MoreAssignmentsCons(("completedAt", "'" + nowIso + "'"), []);
        CompletedAtAssignment(nowIso);
      }
    }
    if progress.Some? {
      MoreAssignmentsCons(("progress", IntToString(progress.value)), last);
      ProgressAssignment(IntToString(progress.value));
    } else {
      assert OptionalEntries(status, progress, nowIso) == last;
    }
  }

  /** Whether `WHERE id = ?` selects the row. A cycle synthesized for a
      task without one has no id; binding that missing id gives null, which
      equals no row's id. */
  predicate Targets(c: Cycle, cycleId: Option<int>) {
    cycleId.Some? && c.id == cycleId
  }

  /** The effect of `UPDATE task_cycles SET … WHERE id = ?` on one row. */
  function Updated(c: Cycle, cycleId: Option<int>, status: string, progress: Option<int>, now: int): (r: Cycle)
    ensures !Targets(c, cycleId) ==> r == c
    ensures Targets(c, cycleId) ==>
      && r.id == c.id && r.taskId == c.taskId && r.start == c.start && r.end == c.end
      && r.status == status
      && r.progress == (if progress.Some? then progress.value else c.progress)
      && r.completedAt == (if status == "completed" then Some(now) else c.completedAt)
  {
    if !Targets(c, cycleId) then c
    else
      c.(status := status,
         progress := if progress.Some? then progress.value else c.progress,
         completedAt := if status == "completed" then Some(now) else c.completedAt)
  }

  /** The effect of that statement on the whole table: the rows keep their
      ids and order, only the row with that id changes, and it takes the new
      status. */
  function UpdatedAll(cycles: seq<Cycle>, cycleId: Option<int>, status: string, progress: Option<int>, now: int): (r: seq<Cycle>)
    ensures |r| == |cycles|
    ensures forall i :: 0 <= i < |r| ==> r[i].id == cycles[i].id && r[i].taskId == cycles[i].taskId
    ensures forall i :: 0 <= i < |r| && !Targets(cycles[i], cycleId) ==> r[i] == cycles[i]
    ensures forall i :: 0 <= i < |r| && Targets(cycles[i], cycleId) ==> r[i].status == status
  {
    seq(|cycles|, i requires 0 <= i < |cycles| => Updated(cycles[i], cycleId, status, progress, now))
  }

  /** An update without a cycle id leaves every row as it was. */
  lemma UpdatedAllWithoutId(cycles: seq<Cycle>, status: string, progress: Option<int>, now: int)
    ensures UpdatedAll(cycles, None, status, progress, now) == cycles
  {
  }

  // ---------------------------------------------------------------------
  // The service

  /** `TaskCycleService` over an abstract database holding the `tasks` and
      `task_cycles` tables; `taskList` is the value the task-list subject
      last published. */
  /** Every cycle has an id, and no two cycles share one, as the table's
      auto-incremented primary key guarantees. */
  ghost predicate IdsDistinct(cycles: seq<Cycle>) {
    && (forall i :: 0 <= i < |cycles| ==> cycles[i].id.Some?)
    && (forall i, j :: 0 <= i < j < |cycles| ==> cycles[i].id != cycles[j].id)
  }

  /** Inserting a cycle whose id no stored cycle has keeps the ids
      distinct. */
  lemma AppendFreshId(cycles: seq<Cycle>, c: Cycle)
    requires IdsDistinct(cycles) && c.id.Some?
    requires forall i :: 0 <= i < |cycles| ==> cycles[i].id != c.id
    ensures IdsDistinct(cycles + [c])
  {
    var r := cycles + [c];
    forall i, j | 0 <= i < j < |r| ensures r[i].id != r[j].id {
      if j < |cycles| {
        assert r[i] == cycles[i] && r[j] == cycles[j];
      } else {
        assert r[i] == cycles[i] && r[j] == c;
      }
    }
  }

  class TaskCycleService {
    var tasks: seq<Task>
    var cycles: seq<Cycle>
    var taskList: seq<TaskListItem>

    /** Every stored cycle has an id, and ids are distinct. */
    ghost predicate Valid()
      reads this`cycles
    {
      IdsDistinct(cycles)
    }

    constructor (tasks: seq<Task>)
      ensures Valid() && this.tasks == tasks && cycles == [] && taskList == []
    {
      this.tasks := tasks;
      cycles := [];
      taskList := [];
    }

    /** The loop that builds the latest-cycle map. */
    static method LatestCycleMap(cycles: seq<Cycle>) returns (m: map<int, Cycle>)
      ensures m == LatestCycles(cycles)
    {
      m := map[];
      for k := 0 to |cycles|
        invariant m == LatestCycles(cycles[..k])
      {
        var cycle := cycles[k];
        assert cycles[..k + 1][..k] == cycles[..k];
        if cycle.taskId !in m || cycle.start > m[cycle.taskId].start {
          m := m[cycle.taskId := cycle];
        }
      }
      assert cycles[..|cycles|] == cycles;
    }

    function ActiveTasks(): (r: seq<Task>)
      reads this
      ensures forall i :: 0 <= i < |r| ==> !r[i].archived && r[i] in tasks
      ensures forall i :: 0 <= i < |tasks| && !tasks[i].archived ==> tasks[i] in r
    {
      Seqs.Filter((t: Task) => !t.archived, tasks)
    }

    /** Reads the non-archived tasks and all cycles, and publishes the list
        for the view. */
    method LoadTaskList(view: string, now: int, later: int, cal: Calendar)
      modifies this`taskList
      ensures taskList == TaskList(ActiveTasks(), cycles, view, now, later, cal)
    {
      var allTasks := ActiveTasks();
      var latest := LatestCycleMap(cycles);
      var items := Assemble(latest, allTasks, later, cal);
      var kept := Seqs.Filter((item: TaskListItem) => InView(view, item, now), items);
      taskList := Seqs.SortBy(ItemOrder, kept);
    }

    /** `updateTaskCycleStatus`: rejects any status but the three valid
        ones with the single error message; otherwise rewrites the cycle
        with that id (none when the id is missing) and reloads the `all`
        view. */
    method UpdateTaskCycleStatus(cycleId: Option<int>, status: string, progress: Option<int>, now: int, later: int, cal: Calendar)
      returns (r: Result<(), string>)
      modifies this`cycles, this`taskList
      ensures !ValidStatus(status) ==> r == Failure(UPDATE_FAILED) && cycles == old(cycles) && taskList == old(taskList)
      ensures ValidStatus(status) ==>
        && r.Success?
        && cycles == UpdatedAll(old(cycles), cycleId, status, progress, now)
        && taskList == TaskList(ActiveTasks(), cycles, "all", now, later, cal)
      ensures old(Valid()) ==> Valid()
    {
      if !ValidStatus(status) {
        return Failure(UPDATE_FAILED);
      }
      var i := 0;
      while i < |cycles|
        invariant 0 <= i <= |cycles| && |cycles| == |old(cycles)|
        invariant forall k :: 0 <= k < i ==> cycles[k] == Updated(old(cycles)[k], cycleId, status, progress, now)
        invariant forall k :: i <= k < |cycles| ==> cycles[k] == old(cycles)[k]
      {
        cycles := cycles[i := Updated(cycles[i], cycleId, status, progress, now)];
        i := i + 1;
      }
      assert cycles == UpdatedAll(old(cycles), cycleId, status, progress, now);
      LoadTaskList("all", now, later, cal);
      return Success(());
    }

    /** The id the database assigns to the next inserted cycle. */
    function NextCycleId(): (id: int)
      reads this
      ensures id >= 1
      ensures forall i :: 0 <= i < |cycles| && cycles[i].id.Some? ==> cycles[i].id.value < id
    {
      MaxCycleId(cycles) + 1
    }

    /** `createNextCycle`, as `NextCycle` describes it; the list is
        reloaded only after an insertion. */
    method CreateNextCycle(task: Option<Task>, previous: Option<Cycle>, now: int, later: int, cal: Calendar)
      returns (r: Result<int, string>)
      requires Valid()
      modifies this`cycles, this`taskList
      ensures Valid()
      ensures (r, cycles) == NextCycle(old(cycles), task, previous, now, cal)
      ensures |cycles| == |old(cycles)| ==> taskList == old(taskList)
      ensures |cycles| != |old(cycles)| ==> taskList == TaskList(ActiveTasks(), cycles, "all", now, later, cal)
    {
      if task.None? || task.value.id == 0 {
        return Failure(CREATE_FAILED);
      }
      var t := task.value;
      var latestCycle := CurrentCycle(cycles, t.id);
      if latestCycle.Some? && (latestCycle.value.status == "pending" || latestCycle.value.status == "in_progress") {
        assert latestCycle.value in cycles;
        return Success(latestCycle.value.id.value);
      }
      var startDate := if previous.Some? then Advance(previous.value.end, t.frequency, cal) else now;
      var endDate := Advance(startDate, t.frequency, cal);
      var newCycleId := NextCycleId();
      var newCycle := Cycle(Some(newCycleId), t.id, startDate, endDate, "pending", 0, None);
      AppendFreshId(cycles, newCycle);
      cycles := cycles + [newCycle];
      LoadTaskList("all", now, later, cal);
      return Success(newCycleId);
    }
  }

  /** Whether a cycle is still open, so that `createNextCycle` reuses it. */
  predicate IsOpen(c: Cycle) {
    c.status == "pending" || c.status == "in_progress"
  }

  /** The result of `createNextCycle` and the cycles afterwards. A task
      without an id is refused and nothing changes. When the task's current
      cycle is still open, its id is returned and nothing changes. Otherwise
      one pending cycle with progress 0 is appended under an id above every
      stored id. It starts one period after the previous cycle's end, or now
      without a previous cycle, and lasts one period. */
  function NextCycle(cycles: seq<Cycle>, task: Option<Task>, previous: Option<Cycle>, now: int, cal: Calendar)
    : (res: (Result<int, string>, seq<Cycle>))
    requires IdsDistinct(cycles)
    ensures res.0.Failure? <==> task.None? || task.value.id == 0
    ensures res.0.Failure? ==> res == (Failure(CREATE_FAILED), cycles)
    ensures |res.1| == |cycles| || |res.1| == |cycles| + 1
    ensures res.1[..|cycles|] == cycles
    ensures res.0.Success? && |res.1| == |cycles| ==>
      var current := CurrentCycle(cycles, task.value.id);
      current.Some? && IsOpen(current.value) && current.value.id == Some(res.0.value)
    ensures |res.1| == |cycles| + 1 ==>
      var c := res.1[|cycles|];
      var start := if previous.Some? then Advance(previous.value.end, task.value.frequency, cal) else now;
      && res.0.Success? && task.Some?
      && (CurrentCycle(cycles, task.value.id).None? || !IsOpen(CurrentCycle(cycles, task.value.id).value))
      && c == Cycle(Some(res.0.value), task.value.id, start, Advance(start, task.value.frequency, cal), "pending", 0, None)
      && forall i :: 0 <= i < |cycles| ==> cycles[i].id.value < res.0.value
  {
    if task.None? || task.value.id == 0 then (Failure(CREATE_FAILED), cycles)
    else
      var t := task.value;
      var current := CurrentCycle(cycles, t.id);
      if current.Some? && IsOpen(current.value) then
        (Success(current.value.id.value), cycles)
      else
        var start := if previous.Some? then Advance(previous.value.end, t.frequency, cal) else now;
        var id := MaxCycleId(cycles) + 1;
        var c := Cycle(Some(id), t.id, start, Advance(start, t.frequency, cal), "pending", 0, None);
        assert (cycles + [c])[..|cycles|] == cycles;
        (Success(id), cycles + [c])
  }

  /** Completing the task's current cycle always makes `createNextCycle`
      append a fresh cycle: the completed cycle is no longer open. */
  lemma CompletedCurrentCycleIsReplaced(cycles: seq<Cycle>, task: Task, previous: Option<Cycle>, now: int, cal: Calendar)
    requires IdsDistinct(cycles) && task.id != 0
    requires CurrentCycle(cycles, task.id).Some?
    requires CurrentCycle(cycles, task.id).value.status == "completed"
    ensures |NextCycle(cycles, Some(task), previous, now, cal).1| == |cycles| + 1
  {
  }

  function MaxCycleId(cycles: seq<Cycle>): (m: int)
    ensures m >= 0
    ensures forall i :: 0 <= i < |cycles| && cycles[i].id.Some? ==> cycles[i].id.value <= m
    decreases |cycles|
  {
    if |cycles| == 0 then 0
    else
      var rest := MaxCycleId(cycles[1..]);
      var here := if cycles[0].id.Some? then cycles[0].id.value else 0;
      if here > rest then here else rest
  }
}
