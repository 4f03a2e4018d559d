/** The presentation helpers of a task row: the colour and icon of a cycle
    status, the colour of a task type, and the due-date text. */
module TaskListItemComponent {
  import opened Wrappers
  import opened Text

  const STATUSES: seq<string> := ["pending", "in_progress", "completed", "skipped"]

  /** `getStatusColor` */
  function StatusColor(status: string): (color: string)
    ensures color == "medium" <==> status == "pending" || status !in STATUSES
    ensures color in ["medium", "primary", "success", "warning"]
  {
    match status
    case "pending" => "medium"
    case "in_progress" => "primary"
    case "completed" => "success"
    case "skipped" => "warning"
    case _ => "medium"
  }

  /** `getStatusIcon` */
  function StatusIcon(status: string): (icon: string)
    ensures icon == "help-outline" <==> status !in STATUSES
  {
    match status
    case "pending" => "time-outline"
    case "in_progress" => "play-outline"
    case "completed" => "checkmark-circle-outline"
    case "skipped" => "forward-outline"
    case _ => "help-outline"
  }

  /** Distinct known statuses get distinct icons, so the icon alone tells
      the status. */
  lemma StatusIconInjective(a: string, b: string)
    requires a in STATUSES && b in STATUSES && a != b
    ensures StatusIcon(a) != StatusIcon(b)
  {
  }

  /** `getTypeColor`: the type is lower-cased before it is matched. */
  function TypeColor(taskType: string): (color: string)
    ensures color == "medium" <==> ToLower(taskType) !in ["payment", "update", "custom"]
  {
    match ToLower(taskType)
    case "payment" => "success"
    case "update" => "primary"
    case "custom" => "tertiary"
    case _ => "medium"
  }

  /** Upper-casing a type name does not change its colour: the match
      ignores case. */
  lemma TypeColorIgnoresCase(taskType: string)
    ensures TypeColor(ToUpper(taskType)) == TypeColor(taskType)
  {
    assert ToLower(ToUpper(taskType)) == ToLower(taskType) by {
      forall i | 0 <= i < |taskType| ensures ToLower(ToUpper(taskType))[i] == ToLower(taskType)[i] {
        var c := taskType[i];
        assert ToUpper(taskType)[i] == UpperChar(c);
        if 'a' <= c <= 'z' {
          assert LowerChar(UpperChar(c)) == c == LowerChar(c);
        }
      }
    }
  }

  /** What the date text depends on in the browser: parsing (None for an
      invalid date), the calendar day of a time in local time, the day after
      a time, and the local time and date texts. */
  datatype Locale = Locale(parse: string -> Option<int>, dayOf: int -> int, nextDay: int -> int,
                           timeText: int -> string, dateText: int -> string)

  /** The day part of a formatted date: `Today`, `Tomorrow`, or the local
      date. */
  function DayText(d: int, now: int, locale: Locale): (day: string)
    ensures locale.dayOf(d) == locale.dayOf(now) ==> day == "Today"
    ensures locale.dayOf(d) != locale.dayOf(now) && locale.dayOf(d) == locale.dayOf(locale.nextDay(now)) ==>
      day == "Tomorrow"
    ensures locale.dayOf(d) != locale.dayOf(now) && locale.dayOf(d) != locale.dayOf(locale.nextDay(now)) ==>
      day == locale.dateText(d)
  {
    if locale.dayOf(d) == locale.dayOf(now) then "Today"
    else if locale.dayOf(d) == locale.dayOf(locale.nextDay(now)) then "Tomorrow"
    else locale.dateText(d)
  }

  /** `formatDate`: `No date` for an empty value, `Invalid date` when it does
      not parse, and otherwise the day followed by the local time. */
  function FormatDate(date: string, now: int, locale: Locale): (text: string)
    ensures date == "" ==> text == "No date"
    ensures date != "" && locale.parse(date).None? ==> text == "Invalid date"
    ensures date != "" && locale.parse(date).Some? ==>
      var d := locale.parse(date).value;
      text == DayText(d, now, locale) + " " + locale.timeText(d)
  {
    if date == "" then "No date"
    else match locale.parse(date)
      case None => "Invalid date"
      case Some(d) => DayText(d, now, locale) + " " + locale.timeText(d)
  }

  /** A date on the current day reads `Today` followed by its time, and any
      valid date ends with its time. */
  lemma FormatDateToday(date: string, now: int, locale: Locale)
    requires date != "" && locale.parse(date).Some?
    ensures var d := locale.parse(date).value;
            var text := FormatDate(date, now, locale);
            && |locale.timeText(d)| < |text|
            && text[|text| - |locale.timeText(d)|..] == locale.timeText(d)
            && (locale.dayOf(d) == locale.dayOf(now) ==> StartsWith(text, "Today "))
  {
    var d := locale.parse(date).value;
    var time := locale.timeText(d);
    var head := DayText(d, now, locale) + " ";
    var text := FormatDate(date, now, locale);
    assert text == head + time;
    assert text[|head|..] == time;
    if locale.dayOf(d) == locale.dayOf(now) {
      assert head == "Today ";
      assert text[..|head|] == head;
    }
  }
}
