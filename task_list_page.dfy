/** The task-management list page: all loaded tasks, the segment filter
    (all / pending / completed), and the sort the user picked (field and
    direction) that produce the tasks shown. */
module TaskListPage {
  import opened Wrappers
  import opened Text
  import Seqs

  /** A task as the page holds it; `startDate` is already the time
      `new Date(startDate).getTime()` gives, and `customerName` is the name
      of the attached customer record, when there is one. */
  datatype Task = Task(id: int, title: string, taskType: string, customerName: Option<string>,
                       startDate: int, isCompleted: bool)

  /** The segment filter: `pending` keeps the open tasks, `completed` the
      done ones, any other segment everything. */
  predicate InSegment(segment: string, t: Task) {
    if segment == "pending" then !t.isCompleted
    else if segment == "completed" then t.isCompleted
    else true
  }

  predicate Open(t: Task) { !t.isCompleted }

  predicate Done(t: Task) { t.isCompleted }

  function SegmentFilter(tasks: seq<Task>, segment: string): (r: seq<Task>)
    ensures forall i :: 0 <= i < |r| ==> r[i] in tasks && InSegment(segment, r[i])
    ensures forall i :: 0 <= i < |tasks| && InSegment(segment, tasks[i]) ==> tasks[i] in r
  {
    if segment == "pending" then Seqs.Filter(Open, tasks)
    else if segment == "completed" then Seqs.Filter(Done, tasks)
    else tasks
  }

  predicate TextKeyed(sortBy: string) {
    sortBy == "title" || sortBy == "type" || sortBy == "customerName"
  }

  /** The lower-cased text a task is sorted by in the text modes. */
  function TextKey(sortBy: string, t: Task): string {
    if sortBy == "title" then ToLower(t.title)
    else if sortBy == "type" then ToLower(t.taskType)
    else if t.customerName.Some? then ToLower(t.customerName.value)
    else ""
  }

  /** `valA < valB` for the chosen sort field; any field other than the
      three text ones sorts by start date. */
  predicate KeyLess(sortBy: string, a: Task, b: Task) {
    if TextKeyed(sortBy) then LexLess(TextKey(sortBy, a), TextKey(sortBy, b)) else a.startDate < b.startDate
  }

  /** The comparator does not put `b` before `a`: in ascending order `b`'s
      key is not smaller, in any other order `a`'s key is not smaller. */
  predicate InOrder(sortBy: string, order: string, a: Task, b: Task) {
    if order == "asc" then !KeyLess(sortBy, b, a) else !KeyLess(sortBy, a, b)
  }

  function Comparator(sortBy: string, order: string): (Task, Task) -> bool {
    (a: Task, b: Task) => InOrder(sortBy, order, a, b)
  }

  lemma KeyLessStrictWeakOrder(sortBy: string, a: Task, b: Task, c: Task)
    ensures !(KeyLess(sortBy, a, b) && KeyLess(sortBy, b, a))
    ensures KeyLess(sortBy, a, c) ==> KeyLess(sortBy, a, b) || KeyLess(sortBy, b, c)
  {
    if TextKeyed(sortBy) {
      var ka, kb, kc := TextKey(sortBy, a), TextKey(sortBy, b), TextKey(sortBy, c);
      LexLessAsymmetric(ka, kb);
      LexLessTrichotomy(ka, kb);
      if LexLess(ka, kc) && !LexLess(ka, kb) && ka != kb {
        assert LexLess(kb, ka);
        LexLessTransitive(kb, ka, kc);
      }
    }
  }

  /** Whatever the field and the direction, the comparator is a total
      preorder, so the sort is well defined. */
  lemma ComparatorTotalPreorder(sortBy: string, order: string)
    ensures Seqs.TotalPreorder(Comparator(sortBy, order))
  {
    var le := Comparator(sortBy, order);
    forall a, b ensures le(a, b) || le(b, a) {
      KeyLessStrictWeakOrder(sortBy, a, b, a);
    }
    forall a, b, c | le(a, b) && le(b, c) ensures le(a, c) {
      if order == "asc" {
        KeyLessStrictWeakOrder(sortBy, c, b, a);
      } else {
        KeyLessStrictWeakOrder(sortBy, a, b, c);
      }
    }
  }

  /** The tasks shown: the segment's tasks, sorted on a copy. */
  function View(allTasks: seq<Task>, segment: string, sortBy: string, order: string): seq<Task> {
    Seqs.SortBy(Comparator(sortBy, order), SegmentFilter(allTasks, segment))
  }

  /** The shown tasks are the segment's tasks, each as often as there, in
      ascending key order for `asc` and descending key order otherwise. */
  lemma ViewSpec(allTasks: seq<Task>, segment: string, sortBy: string, order: string)
    ensures var v := View(allTasks, segment, sortBy, order);
            && multiset(v) == multiset(SegmentFilter(allTasks, segment))
            && (order == "asc" ==> forall i, j :: 0 <= i < j < |v| ==> !KeyLess(sortBy, v[j], v[i]))
            && (order != "asc" ==> forall i, j :: 0 <= i < j < |v| ==> !KeyLess(sortBy, v[i], v[j]))
  {
    ComparatorTotalPreorder(sortBy, order);
    Seqs.SortBySorted(Comparator(sortBy, order), SegmentFilter(allTasks, segment));
  }

  /** A task is shown exactly when it is loaded and in the segment. */
  lemma ViewMembers(allTasks: seq<Task>, segment: string, sortBy: string, order: string, t: Task)
    ensures t in View(allTasks, segment, sortBy, order) <==> t in allTasks && InSegment(segment, t)
  {
    var f := SegmentFilter(allTasks, segment);
    assert multiset(View(allTasks, segment, sortBy, order)) == multiset(f);
    assert t in View(allTasks, segment, sortBy, order) <==> t in multiset(f);
    if t in allTasks && InSegment(segment, t) {
      var i :| 0 <= i < |allTasks| && allTasks[i] == t;
    }
    if t in f {
      var i :| 0 <= i < |f| && f[i] == t;
    }
  }

  /** The tasks kept when the task `taskId` is deleted. */
  function OtherThan(taskId: int): Task -> bool {
    (t: Task) => t.id != taskId
  }

  /** Once a task is deleted, no view shows a task with its id. */
  lemma ViewWithout(allTasks: seq<Task>, taskId: int, segment: string, sortBy: string, order: string)
    ensures var v := View(Seqs.Filter(OtherThan(taskId), allTasks), segment, sortBy, order);
            forall i :: 0 <= i < |v| ==> v[i].id != taskId
  {
    var kept := Seqs.Filter(OtherThan(taskId), allTasks);
    var v := View(kept, segment, sortBy, order);
    forall i | 0 <= i < |v| ensures v[i].id != taskId {
      ViewMembers(kept, segment, sortBy, order, v[i]);
    }
  }

  /** When no task has a customer, sorting by customer name ranks all
      tasks equal and leaves them in load order. */
  lemma CustomerSortWithoutCustomersKeepsOrder(allTasks: seq<Task>, segment: string, order: string)
    requires forall i :: 0 <= i < |allTasks| ==> allTasks[i].customerName.None?
    ensures View(allTasks, segment, "customerName", order) == SegmentFilter(allTasks, segment)
  {
    var f := SegmentFilter(allTasks, segment);
    forall i, j | 0 <= i < |f| && 0 <= j < |f| ensures Comparator("customerName", order)(f[i], f[j]) {
      assert f[i] in allTasks && f[j] in allTasks;
    }
    Seqs.SortByAllEqual(Comparator("customerName", order), f);
  }

  class TaskListPage {
    var allTasks: seq<Task>
    var filteredTasks: seq<Task>
    var filterSegment: string
    var currentSortBy: string
    var currentSortOrder: string

    /** What is shown is the view of what is loaded. */
    ghost predicate Valid()
      reads this
    {
      filteredTasks == View(allTasks, filterSegment, currentSortBy, currentSortOrder)
    }

    constructor ()
      ensures Valid() && allTasks == [] && filterSegment == "all"
      ensures currentSortBy == "startDate" && currentSortOrder == "asc"
    {
      allTasks := [];
      filteredTasks := [];
      filterSegment := "all";
      currentSortBy := "startDate";
      currentSortOrder := "asc";
    }

    /** `applyFiltersAndSorting`: filters a copy of the loaded tasks by the
        segment and sorts it; the loaded tasks are not touched. */
    method ApplyFiltersAndSorting()
      modifies this`filteredTasks
      ensures Valid()
    {
      var tasksToProcess := allTasks;
      if filterSegment == "pending" {
        tasksToProcess := Seqs.Filter(Open, tasksToProcess);
      } else if filterSegment == "completed" {
        tasksToProcess := Seqs.Filter(Done, tasksToProcess);
      }
      tasksToProcess := Seqs.SortBy(Comparator(currentSortBy, currentSortOrder), tasksToProcess);
      filteredTasks := tasksToProcess;
    }

    /** `segmentChanged`: a missing or empty segment value means `all`. */
    method SegmentChanged(value: Option<string>)
      modifies this`filterSegment, this`filteredTasks
      ensures filterSegment == if value.Some? && value.value != "" then value.value else "all"
      ensures Valid()
    {
      if value.Some? && value.value != "" {
        filterSegment := value.value;
      } else {
        filterSegment := "all";
      }
      ApplyFiltersAndSorting();
    }

    /** `setSort` */
    method SetSort(sortBy: string, sortOrder: string)
      modifies this`currentSortBy, this`currentSortOrder, this`filteredTasks
      ensures currentSortBy == sortBy && currentSortOrder == sortOrder
      ensures Valid()
    {
      currentSortBy := sortBy;
      currentSortOrder := sortOrder;
      ApplyFiltersAndSorting();
    }

    /** `deleteTask`; `serviceOk` says whether the task service deleted the
        task. On success every loaded task with that id is dropped and the
        view recomputed; on failure nothing changes. */
    method DeleteTask(taskId: int, serviceOk: bool)
      requires Valid()
      modifies this`allTasks, this`filteredTasks
      ensures Valid()
      ensures serviceOk ==> allTasks == Seqs.Filter(OtherThan(taskId), old(allTasks))
      ensures !serviceOk ==> allTasks == old(allTasks) && filteredTasks == old(filteredTasks)
      ensures serviceOk ==> forall i :: 0 <= i < |filteredTasks| ==> filteredTasks[i].id != taskId
    {
      if !serviceOk {
        return;
      }
      allTasks := Seqs.Filter(OtherThan(taskId), allTasks);
      ApplyFiltersAndSorting();
      ViewWithout(old(allTasks), taskId, filterSegment, currentSortBy, currentSortOrder);
    }
  }
}
