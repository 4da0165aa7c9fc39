/**
 * The task form: how a submitted form becomes a task, where that task goes,
 * and which due dates the date picker lets the user choose. The generated id
 * and the current time are parameters; the edit callback belongs to the
 * caller and is modelled by handing the task back.
 */
module TaskForm {
  import opened Types
  import TaskStore
  import FilterStore
  import TaskList

  /**
   * The values the form submits. `tags` is `None` when the tag field holds no
   * value: left untouched in create mode, or pre-filled from a task without tags.
   */
  datatype FormValues = FormValues(title: string, dueDate: Instant, priority: Priority, tags: Option<seq<string>>)

  /**
   * The form's validation rules: a title of at least three characters. The
   * due date and the priority are required fields, which the types already make present.
   */
  predicate Validated(v: FormValues)
  {
    |v.title| >= 3
  }

  /** The values the form starts from when it edits `t` (`...initialValues`). */
  function ValuesOf(t: Task): FormValues
  {
    FormValues(t.title, t.dueDate, t.priority, t.tags)
  }

  /**
   * `newTask` in `handleSubmit`. Identity and completion come from the
   * initial task only in edit mode; the creation time comes from it whenever
   * there is one; the tag list is never absent.
   */
  function NewTask(v: FormValues, isEdit: bool, initial: Option<Task>, freshId: string, now: Instant): (r: Task)
    ensures isEdit && initial.Some? ==> r.id == initial.value.id && r.completed == initial.value.completed
    ensures !(isEdit && initial.Some?) ==> r.id == freshId && !r.completed
    ensures initial.Some? ==> r.createdAt == initial.value.createdAt
    ensures initial.None? ==> r.createdAt == now
    ensures r.tags.Some? && (v.tags.Some? ==> r.tags.value == v.tags.value) && (v.tags.None? ==> r.tags.value == [])
    ensures r.title == v.title && r.dueDate == v.dueDate && r.priority == v.priority
  {
    var editing := isEdit && initial.Some?;
    Task(
      if editing then initial.value.id else freshId,
      v.title,
      if editing then initial.value.completed else false,
      v.dueDate,
      v.priority,
      Some(if v.tags.Some? then v.tags.value else []),
      if initial.Some? then initial.value.createdAt else now)
  }

  /**
   * Submitting a task's own values unchanged in edit mode gives the task back
   * exactly when its tag list is present; an absent list comes back empty.
   */
  lemma EditRoundTrip(t: Task, freshId: string, now: Instant)
    ensures NewTask(ValuesOf(t), true, Some(t), freshId, now) == t <==> t.tags.Some?
    ensures NewTask(ValuesOf(t), true, Some(t), freshId, now) == t.(tags := Some(TagList(t)))
  {
  }

  /** Outside edit mode the form ignores the initial task's id and completion, but not its creation time. */
  lemma CreateKeepsInitialCreatedAt(v: FormValues, t: Task, freshId: string, now: Instant)
    ensures NewTask(v, false, Some(t), freshId, now).createdAt == t.createdAt
    ensures NewTask(v, false, Some(t), freshId, now).id == freshId
  {
  }

  /** Where `handleSubmit` sends the task: to the edit callback, or to `addTask`. */
  datatype Dispatch = FinishEdit(task: Task) | Add(task: Task)

  function Submit(v: FormValues, isEdit: bool, hasCallback: bool, initial: Option<Task>, freshId: string, now: Instant): (d: Dispatch)
    ensures d.task == NewTask(v, isEdit, initial, freshId, now)
    ensures d.FinishEdit? <==> isEdit && hasCallback
  {
    var t := NewTask(v, isEdit, initial, freshId, now);
    if isEdit && hasCallback then FinishEdit(t) else Add(t)
  }

  /**
   * `handleSubmit` against the task store. With a callback in edit mode the
   * store is untouched and the task is returned for the callback; otherwise
   * the task is appended once. Form reset is not modelled.
   */
  method HandleSubmit(store: TaskStore.TaskStore, v: FormValues, isEdit: bool, hasCallback: bool,
                      initial: Option<Task>, freshId: string, now: Instant)
    returns (edited: Option<Task>)
    requires Validated(v)
    modifies store
    ensures var d := Submit(v, isEdit, hasCallback, initial, freshId, now);
      if d.FinishEdit? then edited == Some(d.task) && store.tasks == old(store.tasks)
      else edited == None && store.tasks == old(store.tasks) + [d.task]
    ensures store.filters == old(store.filters) && store.taskToEdit == old(store.taskToEdit)
  {
    var d := Submit(v, isEdit, hasCallback, initial, freshId, now);
    match d
    case FinishEdit(t) =>
      edited := Some(t);
    case Add(t) =>
      store.AddTask(t);
      edited := None;
  }

  /** In edit mode without a callback, the task is appended with the id of a task already stored. */
  lemma EditWithoutCallbackDuplicatesId(ts: seq<Task>, v: FormValues, initial: Task, freshId: string, now: Instant)
    requires initial in ts
    ensures Submit(v, true, false, Some(initial), freshId, now).Add?
    ensures !UniqueIds(ts + [Submit(v, true, false, Some(initial), freshId, now).task])
  {
    var t := NewTask(v, true, Some(initial), freshId, now);
    var i :| 0 <= i < |ts| && ts[i] == initial;
    assert HasId(ts, t.id);
    TaskStore.AddUniqueIff(ts, t);
  }

  /**
   * An edit sent to `updateTask` changes the edited task's title, due date,
   * priority and tags only: id, completion and creation time survive because
   * the form copies them. Every other task is unchanged.
   */
  lemma EditThroughUpdate(ts: seq<Task>, v: FormValues, initial: Task, freshId: string, now: Instant)
    requires UniqueIds(ts) && initial in ts
    ensures var r := TaskStore.UpdateById(ts, NewTask(v, true, Some(initial), freshId, now));
      |r| == |ts| &&
      forall i :: 0 <= i < |ts| ==>
        r[i] == if ts[i] == initial
                then ts[i].(title := v.title, dueDate := v.dueDate, priority := v.priority,
                            tags := Some(if v.tags.Some? then v.tags.value else []))
                else ts[i]
  {
    var u := NewTask(v, true, Some(initial), freshId, now);
    var r := TaskStore.UpdateById(ts, u);
    forall i | 0 <= i < |ts| && ts[i] != initial ensures ts[i].id != u.id {
      var j :| 0 <= j < |ts| && ts[j] == initial;
      assert i != j;
    }
  }

  /** `disabledDate`: a date is disabled when it is present and before the start of today. */
  function Disabled(current: Option<Instant>, k: TaskList.Clock): (r: bool)
    ensures current.None? ==> !r
    ensures current.Some? ==> (r <==> TaskList.InDateRange(current.value, FilterStore.Overdue, k))
  {
    current.Some? && current.value < k.todayStart
  }

  /** Every instant of today, from its first on, can be chosen. */
  lemma TodaySelectable(d: Instant, k: TaskList.Clock)
    requires TaskList.SameDay(d, k)
    ensures !Disabled(Some(d), k)
  {
  }
}
