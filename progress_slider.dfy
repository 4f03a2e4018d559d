/** The progress slider dialog: the progress being edited for a task's
    current cycle, the colour and icon shown for a progress value, and what
    the dialog hands back when it is closed. */
module ProgressSlider {
  import opened Wrappers

  /** `getProgressColor`: success from 100, primary from 75, warning from
      50, medium below. */
  function ProgressColor(progress: int): (color: string)
    ensures color == "success" <==> progress >= 100
    ensures color == "primary" <==> 75 <= progress < 100
    ensures color == "warning" <==> 50 <= progress < 75
    ensures color == "medium" <==> progress < 50
  {
    if progress >= 100 then "success"
    else if progress >= 75 then "primary"
    else if progress >= 50 then "warning"
    else "medium"
  }

  /** The colours in the order the bands climb. */
  function ColorRank(color: string): nat {
    match color
    case "success" => 3
    case "primary" => 2
    case "warning" => 1
    case _ => 0
  }

  /** More progress never shows a lower band. */
  lemma ProgressColorMonotone(p: int, q: int)
    requires p <= q
    ensures ColorRank(ProgressColor(p)) <= ColorRank(ProgressColor(q))
  {
  }

  /** `getProgressIcon` */
  function ProgressIcon(progress: int): (icon: string)
    ensures icon == "checkmark-circle-outline" <==> progress >= 100
    ensures icon != "checkmark-circle-outline" ==> icon == "trending-up-outline"
  {
    if progress >= 100 then "checkmark-circle-outline" else "trending-up-outline"
  }

  /** The icon shows the checkmark exactly when the colour is success. */
  lemma IconAgreesWithColor(progress: int)
    ensures ProgressIcon(progress) == "checkmark-circle-outline" <==> ProgressColor(progress) == "success"
  {
  }

  /** The data the dialog is closed with, and the role. */
  datatype Payload = Payload(action: string, progress: int)
  datatype Dismissal = Dismissal(data: Option<Payload>, role: string)

  class ProgressSliderComponent {
    var currentProgress: int
    var previousProgress: int
    /** How the dialog was closed, once it has been. */
    var dismissal: Option<Dismissal>

    constructor ()
      ensures currentProgress == 0 && previousProgress == 0 && dismissal == None
    {
      currentProgress := 0;
      previousProgress := 0;
      dismissal := None;
    }

    /** `ngOnInit`. `taskItem` is None when no item was given, and otherwise
        the progress of the item's current cycle, None when it has none (or
        the progress is 0, which `|| 0` treats alike). */
    method Init(taskItem: Option<Option<int>>)
      modifies this`currentProgress, this`previousProgress
      ensures taskItem.None? ==> currentProgress == old(currentProgress) && previousProgress == old(previousProgress)
      ensures taskItem.Some? ==> currentProgress == taskItem.value.GetOr(0) && previousProgress == currentProgress
    {
      if taskItem.Some? {
        currentProgress := if taskItem.value.Some? then taskItem.value.value else 0;
        previousProgress := currentProgress;
      }
    }

    /** `setProgress` (and `onProgressChange` with the parsed slider value):
        only the edited progress changes; the dialog stays open. */
    method SetProgress(progress: int)
      modifies this`currentProgress
      ensures currentProgress == progress
    {
      currentProgress := progress;
    }

    /** `completeTask`: closes with `complete` at 100 whatever the slider
        shows. */
    method CompleteTask()
      modifies this`dismissal
      ensures dismissal == Some(Dismissal(Some(Payload("complete", 100)), "confirm"))
    {
      dismissal := Some(Dismissal(Some(Payload("complete", 100)), "confirm"));
    }

    /** `onSave`: closes with `update_progress` and the edited progress, even
        at 100; completing is only ever explicit. */
    method OnSave()
      modifies this`dismissal
      ensures dismissal.Some? && dismissal.value.role == "confirm" && dismissal.value.data.Some?
      ensures dismissal.value.data.value == Payload("update_progress", currentProgress)
    {
      dismissal := Some(Dismissal(Some(Payload("update_progress", currentProgress)), "confirm"));
    }

    /** `onCancel`: closes with no data. */
    method OnCancel()
      modifies this`dismissal
      ensures dismissal == Some(Dismissal(None, "cancel"))
    {
      dismissal := Some(Dismissal(None, "cancel"));
    }

    /** `onKeyDown`: Escape cancels; any other key does nothing. */
    method OnKeyDown(key: string)
      modifies this`dismissal
      ensures key == "Escape" ==> dismissal == Some(Dismissal(None, "cancel"))
      ensures key != "Escape" ==> dismissal == old(dismissal)
    {
      if key == "Escape" {
        OnCancel();
      }
    }
  }
}
