/** The dashboard task list: the chosen view, and the status and progress
    changes it forwards to the task-cycle service, with the notification and
    the next cycle that completing a task triggers. */
module TaskListComponent {
  import opened Wrappers
  import opened TaskCycles

  const UPDATE_STATUS_FAILED := "Failed to update task status. Please try again."
  const NOTIFICATION_FAILED := "Task updated but notification could not be sent."

  /** A toast the page shows: its message and colour. */
  datatype Toast = Toast(message: string, color: string)

  /** A notification handed to the notification service. */
  datatype Notification = Notification(title: string, body: string, taskId: int)

  /** The notification sent when a task is completed. */
  function CompletionNotification(task: Task): (n: Notification)
    ensures n.taskId == task.id && n.title == "Task Completed"
    ensures |task.title| <= |n.body| && n.body[..|task.title|] == task.title
  {
    Notification("Task Completed", task.title + " has been marked as completed.", task.id)
  }

  /** A progress value the update dialog forwards; `None` is a value that is
      not a number, which fails both comparisons. */
  predicate ProgressInRange(progress: Option<int>) {
    progress.Some? && 0 <= progress.value <= 100
  }

  /** The toasts completing a task shows: a warning when the notification
      failed, then the failure toast when the next cycle was refused. */
  function CompletionToasts(notificationOk: bool, created: Result<int, string>): (ts: seq<Toast>)
    ensures |ts| <= 2
    ensures Toast(NOTIFICATION_FAILED, "warning") in ts <==> !notificationOk
    ensures Toast(UPDATE_STATUS_FAILED, "danger") in ts <==> created.Failure?
  {
    (if notificationOk then [] else [Toast(NOTIFICATION_FAILED, "warning")])
      + (if created.Failure? then [Toast(UPDATE_STATUS_FAILED, "danger")] else [])
  }

  class TaskListComponentState {
    var currentView: string
    const service: TaskCycleService
    /** The toasts shown and the notifications requested, oldest first. */
    var toasts: seq<Toast>
    var notifications: seq<Notification>

    constructor (service: TaskCycleService)
      ensures this.service == service && currentView == "all" && toasts == [] && notifications == []
    {
      this.service := service;
      currentView := "all";
      toasts := [];
      notifications := [];
    }

    /** `onViewChange`: stores the view and reloads the list for it. */
    method OnViewChange(view: string, now: int, later: int, cal: Calendar)
      modifies this`currentView, service`taskList
      ensures currentView == view
      ensures service.taskList == TaskList(service.ActiveTasks(), service.cycles, view, now, later, cal)
    {
      currentView := view;
      service.LoadTaskList(currentView, now, later, cal);
    }

    /** `updateProgress`: forwards a progress in [0, 100] with the cycle's
        current status, which is kept; anything else is dropped. A cycle
        synthesized for a task without one has no id, and then no row
        changes. */
    method UpdateProgress(item: TaskListItem, progress: Option<int>, now: int, later: int, cal: Calendar)
      returns (r: Option<Result<(), string>>)
      requires service.Valid()
      modifies service`cycles, service`taskList
      ensures service.Valid()
      ensures !ProgressInRange(progress) ==>
        r == None && service.cycles == old(service.cycles) && service.taskList == old(service.taskList)
      ensures ProgressInRange(progress) && ValidStatus(item.cycle.status) ==>
        && r.Some? && r.value.Success?
        && service.cycles == UpdatedAll(old(service.cycles), item.cycle.id, item.cycle.status, progress, now)
        && service.taskList == TaskList(service.ActiveTasks(), service.cycles, "all", now, later, cal)
      ensures ProgressInRange(progress) && !ValidStatus(item.cycle.status) ==>
        && r == Some(Failure(UPDATE_FAILED))
        && service.cycles == old(service.cycles) && service.taskList == old(service.taskList)
    {
      r := None;
      if progress.Some? && progress.value >= 0 && progress.value <= 100 {
        var result := service.UpdateTaskCycleStatus(item.cycle.id, item.cycle.status, progress, now, later, cal);
        r := Some(result);
      }
    }

    /** `updateStatus`: asks the service to set the status; when it refuses,
        a failure toast is shown. After a successful change to `completed`
        the page goes on with `AfterCompletion`, also for a cycle without an
        id, whose update changed no row. `next` is what the request for the
        next cycle returned. */
    method UpdateStatus(item: TaskListItem, status: string, notificationOk: bool, now: int, later: int, cal: Calendar)
      returns (next: Option<Result<int, string>>)
      requires service.Valid()
      modifies service`cycles, service`taskList, this`toasts, this`notifications
      ensures service.Valid()
      ensures next.Some? <==> status == "completed"
      ensures !ValidStatus(status) ==>
        && service.cycles == old(service.cycles) && service.taskList == old(service.taskList)
        && toasts == old(toasts) + [Toast(UPDATE_STATUS_FAILED, "danger")]
        && notifications == old(notifications)
      ensures ValidStatus(status) ==>
        service.taskList == TaskList(service.ActiveTasks(), service.cycles, "all", now, later, cal)
      ensures ValidStatus(status) && status != "completed" ==>
        && service.cycles == UpdatedAll(old(service.cycles), item.cycle.id, status, None, now)
        && toasts == old(toasts) && notifications == old(notifications)
      ensures status == "completed" ==>
        && (next.value, service.cycles) ==
             NextCycle(UpdatedAll(old(service.cycles), item.cycle.id, status, None, now), Some(item.task), Some(item.cycle), now, cal)
        && notifications == old(notifications) + [CompletionNotification(item.task)]
        && toasts == old(toasts) + CompletionToasts(notificationOk, next.value)
    {
      next := None;
      var updated := service.UpdateTaskCycleStatus(item.cycle.id, status, None, now, later, cal);
      if updated.Failure? {
        toasts := toasts + [Toast(UPDATE_STATUS_FAILED, "danger")];
        return;
      }
      if status == "completed" {
        var created := AfterCompletion(item, notificationOk, now, later, cal);
        next := Some(created);
      }
    }

    /** The `completed` branch of `updateStatus`: the completion notification
        is sent (a failure only adds a warning toast) and the next cycle is
        requested, whose failure shows the failure toast. */
    method AfterCompletion(item: TaskListItem, notificationOk: bool, now: int, later: int, cal: Calendar)
      returns (created: Result<int, string>)
      requires service.Valid()
      modifies service`cycles, service`taskList, this`toasts, this`notifications
      ensures service.Valid()
      ensures (created, service.cycles) == NextCycle(old(service.cycles), Some(item.task), Some(item.cycle), now, cal)
      ensures |service.cycles| == |old(service.cycles)| ==> service.taskList == old(service.taskList)
      ensures |service.cycles| != |old(service.cycles)| ==>
        service.taskList == TaskList(service.ActiveTasks(), service.cycles, "all", now, later, cal)
      ensures notifications == old(notifications) + [CompletionNotification(item.task)]
      ensures toasts == old(toasts) + CompletionToasts(notificationOk, created)
    {
      notifications := notifications + [CompletionNotification(item.task)];
      if !notificationOk {
        toasts := toasts + [Toast(NOTIFICATION_FAILED, "warning")];
      }
      created := service.CreateNextCycle(Some(item.task), Some(item.cycle), now, later, cal);
      if created.Failure? {
        toasts := toasts + [Toast(UPDATE_STATUS_FAILED, "danger")];
      }
    }
  }
}
