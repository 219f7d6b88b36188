/** The pieces of logic inside the `TodoItem` component: the relative-time label of `formatDate`
    and the arguments its checkbox and delete buttons hand to the screen's callbacks. */
module TodoItem {
  import opened Results
  import opened TodoData
  import opened TodoService
  import JsText

  const MsPerMinute := 60000
  const MsPerHour := 3600000
  const MsPerDay := 86400000

  /** What `formatDate` shows. `OnDate` stands for `toLocaleDateString('en-US', { month: 'short',
      day: 'numeric' })` of the timestamp, whose text depends on the locale tables. */
  datatype Label =
    | Blank
    | JustNow
    | MinutesAgo(minutes: nat)
    | HoursAgo(hours: nat)
    | DaysAgo(days: nat)
    | OnDate(millis: int)

  /** `formatDate(timestamp)` at the moment `now` (both in milliseconds since the epoch); `None` is
      a falsy timestamp, such as the `null` a pending server timestamp reads as. The differences are
      floor-divided (Dafny's division by a positive constant rounds down, as `Math.floor` does). */
  function FormatDate(timestamp: Option<int>, now: int): (l: Label)
    ensures timestamp.None? <==> l == Blank
    ensures timestamp.Some? ==>
      var diff := now - timestamp.value;
      && (l == JustNow <==> diff < MsPerMinute)
      && (l.MinutesAgo? <==> MsPerMinute <= diff < MsPerHour)
      && (l.HoursAgo? <==> MsPerHour <= diff < MsPerDay)
      && (l.DaysAgo? <==> MsPerDay <= diff < 7 * MsPerDay)
      && (l.OnDate? <==> 7 * MsPerDay <= diff)
      && (l.MinutesAgo? ==> 1 <= l.minutes < 60 && l.minutes * MsPerMinute <= diff < (l.minutes + 1) * MsPerMinute)
      && (l.HoursAgo? ==> 1 <= l.hours < 24 && l.hours * MsPerHour <= diff < (l.hours + 1) * MsPerHour)
      && (l.DaysAgo? ==> 1 <= l.days < 7 && l.days * MsPerDay <= diff < (l.days + 1) * MsPerDay)
      && (l.OnDate? ==> l.millis == timestamp.value)
  {
    match timestamp
    case None => Blank
    case Some(t) =>
      var diff := now - t;
      var mins, hours, days := diff / MsPerMinute, diff / MsPerHour, diff / MsPerDay;
      if mins < 1 then JustNow
      else if mins < 60 then MinutesAgo(mins)
      else if hours < 24 then HoursAgo(hours)
      else if days < 7 then DaysAgo(days)
      else OnDate(t)
  }

  /** The text of a label; `localeDate` is the locale-formatted date of an `OnDate` label. */
  function Render(l: Label, localeDate: string): (text: string)
    ensures l.Blank? ==> text == ""
    ensures l.JustNow? ==> text == "Just now"
    ensures l.OnDate? ==> text == localeDate
    ensures l.MinutesAgo? ==> ShowsCount(text, l.minutes, "m ago")
    ensures l.HoursAgo? ==> ShowsCount(text, l.hours, "h ago")
    ensures l.DaysAgo? ==> ShowsCount(text, l.days, "d ago")
  {
    match l
    case Blank => ""
    case JustNow => "Just now"
    case MinutesAgo(m) => RelativeTextGivesCountBack(m, "m ago"); JsText.Decimal(m) + "m ago"
    case HoursAgo(h) => RelativeTextGivesCountBack(h, "h ago"); JsText.Decimal(h) + "h ago"
    case DaysAgo(d) => RelativeTextGivesCountBack(d, "d ago"); JsText.Decimal(d) + "d ago"
    case OnDate(_) => localeDate
  }

  /** `text` is a count in decimal digits followed by `unit`, and the digits read back as `n`. */
  predicate ShowsCount(text: string, n: nat, unit: string)
  {
    && |text| > |unit| && text[|text| - |unit|..] == unit
    && JsText.IsDigits(text[..|text| - |unit|]) && JsText.ParseDecimal(text[..|text| - |unit|]) == n
  }

  /** Relative labels of one kind render to different texts for different counts: the digits
      before the unit give the count back. */
  lemma RelativeTextGivesCountBack(m: nat, unit: string)
    ensures ShowsCount(JsText.Decimal(m) + unit, m, unit)
  {
    var text := JsText.Decimal(m) + unit;
    assert text[..|text| - |unit|] == JsText.Decimal(m);
    assert text[|text| - |unit|..] == unit;
    JsText.ParseDecimalInvertsDecimal(m);
  }

  /** The checkbox calls `onToggleComplete(todo.id, todo.completed)` with the status on display. */
  function CheckboxPress(todo: Todo): (args: (TodoId, bool))
    ensures args.0 == todo.id && args.1 == todo.completed
    ensures TogglePatch(args.1).completed == Some(!todo.completed)
  {
    (todo.id, todo.completed)
  }

  /** The delete button calls `onDelete(todo.id)`. */
  function DeletePress(todo: Todo): (id: TodoId)
    ensures id == todo.id
  {
    todo.id
  }

  /** Pressing the checkbox of a todo as the current listing shows it flips the stored status, on
      either API path. */
  lemma CheckboxFlipsDisplayedStatus(s: Repo, modular: bool, i: nat)
    requires s.user.Some? && s.outage.None? && ListStep(s).Success?
    requires i < |ListStep(s).data|
    ensures var todo := ListStep(s).data[i];
            var (id, status) := CheckboxPress(todo);
            var s' := ToggleStep(s, modular, id, status).0;
            && ToggleStep(s, modular, id, status).1.Success?
            && id in TasksOf(s'.store, s.user.value)
            && TasksOf(s'.store, s.user.value)[id].completed == !TasksOf(s.store, s.user.value)[id].completed
  {
    var todo := ListStep(s).data[i];
    assert todo == WithId(todo.id, TasksOf(s.store, s.user.value)[todo.id]);
  }

  /** Pressing delete on a listed todo removes it from the next listing. */
  lemma DeleteRemovesShownTodo(s: Repo, i: nat)
    requires s.user.Some? && s.outage.None? && ListStep(s).Success?
    requires i < |ListStep(s).data|
    ensures var id := DeletePress(ListStep(s).data[i]);
            var s' := DeleteStep(s, id).0;
            && ListStep(s').Success?
            && |ListStep(s').data| + 1 == |ListStep(s).data|
            && forall j :: 0 <= j < |ListStep(s').data| ==> ListStep(s').data[j].id != id
  {
    var id := DeletePress(ListStep(s).data[i]);
    DeleteThenList(s, id);
  }
}
