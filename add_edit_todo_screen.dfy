/** The logic of `AddEditTodoScreen`: the form that creates a todo or edits one. It prefills the
    fields in edit mode, caps what can be typed, and on save trims both fields and hands them to
    the repository. */
module AddEditTodoScreen {
  import opened Results
  import opened TodoData
  import opened TodoService
  import JsText

  /** `maxLength` of the title and description inputs. */
  const TitleMaxLength := 100
  const DescriptionMaxLength := 500

  const TitleMissingMessage := "Please enter a title for your task"

  /** What a press of the save button ends in. `Crashed` is the edit route opened without a todo:
      reading `todo.id` throws before the repository is reached, and the rejection is unhandled. */
  datatype SaveOutcome = TitleMissing | Saved | SaveFailed(message: string) | Crashed

  /** What a text input with a `maxLength` hands to `onChangeText`: the longest start of the typed
      text that fits in `max` UTF-16 code units, never cutting a surrogate pair in half. */
  function Cap(text: string, max: nat): (r: string)
    ensures |r| <= |text| && r == text[..|r|]
    ensures JsText.Utf16Length(r) <= max
    ensures JsText.Utf16Length(text) <= max ==> r == text
    ensures |r| < |text| ==> JsText.Utf16Length(r) + JsText.Utf16Width(text[|r|]) > max
    decreases |text|
  {
    if text == [] then []
    else if JsText.Utf16Width(text[0]) > max then []
    else [text[0]] + Cap(text[1..], max - JsText.Utf16Width(text[0]))
  }

  /** The update an edit sends: the two trimmed fields and nothing else. */
  function EditPatch(title: string, description: string): (p: Patch)
    ensures forall t: Task, ts: Timestamp :: ApplyPatch(t, p, ts)
              == t.(title := JsText.Trim(title), description := JsText.Trim(description), updatedAt := ts)
  {
    Patch(Some(JsText.Trim(title)), Some(JsText.Trim(description)), None, None, None)
  }

  /** `handleSave` on the repository state `s`. A title that trims to nothing is refused before
      the repository is touched; otherwise edit mode updates the routed todo and add mode creates a
      new one, both with the trimmed fields. */
  function SaveStep(s: Repo, isEditMode: bool, todo: Option<Todo>, title: string, description: string)
    : (r: (Repo, SaveOutcome))
    ensures r.1 == TitleMissing <==> JsText.IsBlank(title)
    ensures r.1 == Crashed <==> !JsText.IsBlank(title) && isEditMode && todo.None?
    ensures !r.1.Saved? ==> r.0 == s
  {
    if JsText.IsBlank(title) then (s, TitleMissing)
    else if isEditMode && todo.None? then (s, Crashed)
    else
      var (s', r) := SendStep(s, if isEditMode then todo else None, title, description);
      (s', if r.Success? then Saved else SaveFailed(Message(r.error)))
  }

  /** The repository call of a save: `updateTodo(todo.id, {title, description})` for the edited
      `todo`, or `addTodo(title, description)` when there is none (add mode), both fields trimmed. */
  function SendStep(s: Repo, edited: Option<Todo>, title: string, description: string): (r: (Repo, Result<()>))
    ensures r.1.Success? <==>
              s.user.Some? && s.outage.None? && (edited.Some? ==> edited.value.id in TasksOf(s.store, s.user.value))
    ensures r.1.Failure? ==> r.0 == s
  {
    match edited
    case Some(todo) => UpdateStep(s, todo.id, EditPatch(title, description))
    case None =>
      var (s', r) := AddStep(s, JsText.Trim(title), JsText.Trim(description));
      (s', if r.Success? then Success(()) else Failure(r.error))
  }

  /** A save that passes the checks of the form ends as the repository call ends. */
  lemma SaveStepSends(s: Repo, isEditMode: bool, todo: Option<Todo>, title: string, description: string)
    ensures !JsText.IsBlank(title) && !(isEditMode && todo.None?) ==>
      var (s', r) := SendStep(s, if isEditMode then todo else None, title, description);
      SaveStep(s, isEditMode, todo, title, description) == (s', if r.Success? then Saved else SaveFailed(Message(r.error)))
  {
  }

  /** Only a title with a non-whitespace character reaches the repository: a blank one leaves the
      state as it was, and a refused save is never mistaken for a store failure. */
  lemma BlankTitleNeverWrites(s: Repo, isEditMode: bool, todo: Option<Todo>, title: string, description: string)
    ensures var (s', o) := SaveStep(s, isEditMode, todo, title, description);
            && (o == TitleMissing <==> JsText.IsBlank(title))
            && (o == TitleMissing ==> s' == s)
            && (o == TitleMissing <==> forall i :: 0 <= i < |title| ==> JsText.IsTrimmable(title[i]))
  {
    JsText.BlankIffAllTrimmable(title);
  }

  /** A saved new todo comes first in the listing (ahead of every document the server stamped),
      with both fields trimmed, its title non-blank, and neither field changed by trimming again. */
  lemma AddSaveStoresTrimmed(s: Repo, title: string, description: string)
    requires Consistent(s) && s.user.Some? && s.outage.None? && ServerStamped(s, s.user.value)
    requires !JsText.IsBlank(title)
    ensures var (s', o) := SaveStep(s, false, None, title, description);
            && o == Saved
            && ListStep(s').Success? && |ListStep(s').data| == |ListStep(s).data| + 1
            && var t := ListStep(s').data[0];
               && t.title == JsText.Trim(title) && t.description == JsText.Trim(description)
               && !t.completed && !JsText.IsBlank(t.title)
               && JsText.Trim(t.title) == t.title && JsText.Trim(t.description) == t.description
               && ListStep(s').data[1..] == ListStep(s).data
  {
    AddThenList(s, JsText.Trim(title), JsText.Trim(description));
    JsText.TrimIdempotent(title);
    JsText.TrimIdempotent(description);
  }

  /** A saved edit writes both trimmed fields onto the routed todo and leaves its completion status,
      its creation time, the other todos and the order of the listing as they were. */
  lemma EditSaveStoresTrimmed(s: Repo, todo: Todo, title: string, description: string)
    requires Consistent(s) && s.user.Some? && s.outage.None?
    requires todo.id in TasksOf(s.store, s.user.value) && !JsText.IsBlank(title)
    ensures var (s', o) := SaveStep(s, true, Some(todo), title, description);
            var before, after := TasksOf(s.store, s.user.value), TasksOf(s'.store, s.user.value);
            && o == Saved
            && after.Keys == before.Keys
            && after[todo.id].title == JsText.Trim(title)
            && after[todo.id].description == JsText.Trim(description)
            && after[todo.id].completed == before[todo.id].completed
            && after[todo.id].createdAt == before[todo.id].createdAt
            && after[todo.id].updatedAt > before[todo.id].updatedAt
            && (forall k :: k in before && k != todo.id ==> after[k] == before[k])
            && Ordered(after) == Ordered(before)
  {
    UpdateThenList(s, todo.id, EditPatch(title, description));
  }

  /** Saving an edit without touching the prefilled fields of a todo whose fields were stored
      trimmed (as every added todo's are) rewrites the same title and description. */
  lemma UntouchedEditKeepsFields(s: Repo, todo: Todo)
    requires Consistent(s) && s.user.Some? && s.outage.None?
    requires todo.id in TasksOf(s.store, s.user.value)
    requires JsText.Trim(todo.title) == todo.title && todo.title != ""
    requires JsText.Trim(todo.description) == todo.description
    ensures var (s', o) := SaveStep(s, true, Some(todo), todo.title, todo.description);
            var after := TasksOf(s'.store, s.user.value);
            && o == Saved
            && after[todo.id].title == todo.title && after[todo.id].description == todo.description
  {
    EditSaveStoresTrimmed(s, todo, todo.title, todo.description);
  }

  /** A save that reaches the repository fails exactly when nobody is signed in, the store is
      unreachable, or the edited todo no longer exists; a failed save changes nothing. */
  lemma FailedSaveChangesNothing(s: Repo, isEditMode: bool, todo: Option<Todo>, title: string, description: string)
    requires !JsText.IsBlank(title) && (isEditMode ==> todo.Some?)
    ensures var (s', o) := SaveStep(s, isEditMode, todo, title, description);
            && (o.SaveFailed? <==>
                  s.user.None? || s.outage.Some?
                  || (isEditMode && todo.value.id !in TasksOf(s.store, s.user.value)))
            && (o.SaveFailed? ==> s' == s)
            && (s.user.None? ==> o == SaveFailed(Message(NotAuthenticated)))
            && (s.user.Some? && s.outage.Some? ==> o == SaveFailed(s.outage.value))
  {
  }

  class AddEditTodoScreen {
    /** `mode === 'edit'` from the route. */
    const isEditMode: bool
    /** The `todo` route parameter. */
    const todo: Option<Todo>
    var title: string
    var description: string
    var loading: bool
    /** The message of the last `Alert.alert('Error', ...)`, if any. */
    var alert: Option<string>
    /** Whether `navigation.goBack()` was called. */
    var navigatedBack: bool

    constructor (isEditMode: bool, todo: Option<Todo>)
      ensures this.isEditMode == isEditMode && this.todo == todo
      ensures title == "" && description == "" && !loading && alert.None? && !navigatedBack
    {
      this.isEditMode, this.todo := isEditMode, todo;
      title, description, loading, alert, navigatedBack := "", "", false, None, false;
    }

    /** The effect that copies the routed todo into the form; `todo.description || ''` is the
        description itself, a string never being null here. */
    method Prefill()
      modifies this
      ensures isEditMode && todo.Some? ==> title == todo.value.title && description == todo.value.description
      ensures !(isEditMode && todo.Some?) ==> title == old(title) && description == old(description)
      ensures loading == old(loading) && alert == old(alert) && navigatedBack == old(navigatedBack)
    {
      if isEditMode && todo.Some? {
        title := todo.value.title;
        description := todo.value.description;
      }
    }

    method TypeTitle(text: string)
      modifies this
      ensures title == Cap(text, TitleMaxLength) && description == old(description)
      ensures loading == old(loading) && alert == old(alert) && navigatedBack == old(navigatedBack)
    {
      title := Cap(text, TitleMaxLength);
    }

    method TypeDescription(text: string)
      modifies this
      ensures description == Cap(text, DescriptionMaxLength) && title == old(title)
      ensures loading == old(loading) && alert == old(alert) && navigatedBack == old(navigatedBack)
    {
      description := Cap(text, DescriptionMaxLength);
    }

    /** Sends the trimmed fields to the repository: an update of `edited`, or an add. */
    method Send(svc: TodoService, edited: Option<Todo>) returns (r: Result<()>)
      modifies svc
      ensures (svc.State(), r) == SendStep(old(svc.State()), edited, title, description)
    {
      if edited.Some? {
        r := svc.UpdateTodo(edited.value.id, EditPatch(title, description));
      } else {
        var added := svc.AddTodo(JsText.Trim(title), Some(JsText.Trim(description)));
        r := if added.Success? then Success(()) else Failure(added.error);
      }
    }

    /** A press of the save button, which is disabled while a save is in flight. */
    method HandleSave(svc: TodoService)
      modifies this, svc
      ensures title == old(title) && description == old(description)
      ensures old(loading) ==> svc.State() == old(svc.State()) && loading
                               && alert == old(alert) && navigatedBack == old(navigatedBack)
      ensures !old(loading) ==>
        var (s', o) := SaveStep(old(svc.State()), isEditMode, todo, title, description);
        && svc.State() == s'
        && loading == (o == Crashed)
        && navigatedBack == (old(navigatedBack) || o == Saved)
        && alert == (match o
                     case TitleMissing => Some(TitleMissingMessage)
                     case SaveFailed(m) => Some(m)
                     case _ => old(alert))
    {
      if loading {
        return;
      }
      if JsText.IsBlank(title) {
        alert := Some(TitleMissingMessage);
        return;
      }
      if isEditMode && todo.None? {
        loading := true;
        return;
      }
      loading := true;
      ghost var before := svc.State();
      var result := Send(svc, if isEditMode then todo else None);
      SaveStepSends(before, isEditMode, todo, title, description);
      loading := false;
      if result.Success? {
        navigatedBack := true;
      } else {
        alert := Some(Message(result.error));
      }
    }
  }
}
