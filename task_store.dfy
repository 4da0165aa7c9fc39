/**
 * The task store: the authoritative list of tasks, a legacy filter record
 * that only this store knows about, and the task selected for editing. Every
 * operation replaces one field with a new value computed by a pure function
 * of the old one.
 */
module TaskStore {
  import opened Types
  import opened Seqs

  /** The store's own status vocabulary; `Active` means not completed. */
  datatype StatusFilter = AllStatuses | Completed | Active

  /** A single priority, or any. */
  datatype PriorityFilter = AnyPriority | OnlyPriority(priority: Priority)

  datatype DateRangeFilter = AllDates | Today | Week | Month | Overdue

  datatype Filters = Filters(status: StatusFilter, priority: PriorityFilter, dateRange: DateRangeFilter, search: string)

  /** A `Partial<TaskFilters>`: a field that is `None` is missing from the object. */
  datatype FiltersPatch = FiltersPatch(
    status: Option<StatusFilter>,
    priority: Option<PriorityFilter>,
    dateRange: Option<DateRangeFilter>,
    search: Option<string>)

  const InitialFilters := Filters(AllStatuses, AnyPriority, AllDates, "")

  const EmptyPatch := FiltersPatch(None, None, None, None)

  function Pick<T>(o: Option<T>, otherwise: T): T
  {
    match o
    case Some(v) => v
    case None => otherwise
  }

  /** `{ ...f, ...p }`: each field present in the patch overwrites, the others stay. */
  function MergeFilters(f: Filters, p: FiltersPatch): (r: Filters)
    ensures p.status.Some? ==> r.status == p.status.value
    ensures p.status.None? ==> r.status == f.status
    ensures p.priority.Some? ==> r.priority == p.priority.value
    ensures p.priority.None? ==> r.priority == f.priority
    ensures p.dateRange.Some? ==> r.dateRange == p.dateRange.value
    ensures p.dateRange.None? ==> r.dateRange == f.dateRange
    ensures p.search.Some? ==> r.search == p.search.value
    ensures p.search.None? ==> r.search == f.search
  {
    Filters(Pick(p.status, f.status), Pick(p.priority, f.priority),
            Pick(p.dateRange, f.dateRange), Pick(p.search, f.search))
  }

  /** The later of two patches wins on every field both carry. */
  function ThenPatch(p1: FiltersPatch, p2: FiltersPatch): FiltersPatch
  {
    FiltersPatch(
      if p2.status.Some? then p2.status else p1.status,
      if p2.priority.Some? then p2.priority else p1.priority,
      if p2.dateRange.Some? then p2.dateRange else p1.dateRange,
      if p2.search.Some? then p2.search else p1.search)
  }

  lemma MergeEmptyPatch(f: Filters)
    ensures MergeFilters(f, EmptyPatch) == f
  {
  }

  lemma MergeTwice(f: Filters, p1: FiltersPatch, p2: FiltersPatch)
    ensures MergeFilters(MergeFilters(f, p1), p2) == MergeFilters(f, ThenPatch(p1, p2))
  {
  }

  lemma MergeIdempotent(f: Filters, p: FiltersPatch)
    ensures MergeFilters(MergeFilters(f, p), p) == MergeFilters(f, p)
  {
  }

  // ---- task list transformations ----

  /** `tasks.filter((task) => task.id !== id)`. */
  function RemoveById(ts: seq<Task>, id: string): (r: seq<Task>)
    ensures forall t :: t in r <==> t in ts && t.id != id
  {
    Filter((t: Task) => t.id != id, ts)
  }

  /** The task as `toggleCompleted` leaves it: `completed` flipped when the id matches. */
  function ToggleIfMatch(t: Task, id: string): Task
  {
    if t.id == id then t.(completed := !t.completed) else t
  }

  /** `tasks.map((task) => task.id === id ? { ...task, completed: !task.completed } : task)`. */
  function ToggleById(ts: seq<Task>, id: string): (r: seq<Task>)
    ensures |r| == |ts|
    ensures forall i :: 0 <= i < |ts| ==> r[i].(completed := ts[i].completed) == ts[i]
    ensures forall i :: 0 <= i < |ts| ==> (r[i].completed != ts[i].completed <==> ts[i].id == id)
  {
    Map((t: Task) => ToggleIfMatch(t, id), ts)
  }

  /** `{ ...task, ...u }`: every field of `u`, except that a missing `tags` keeps the old list. */
  function MergeTask(t: Task, u: Task): (r: Task)
    ensures u.tags.Some? ==> r == u
    ensures u.tags.None? ==> r.(tags := None) == u && r.tags == t.tags
  {
    u.(tags := if u.tags.Some? then u.tags else t.tags)
  }

  /** `tasks.map((task) => task.id === u.id ? { ...task, ...u } : task)`. */
  function UpdateById(ts: seq<Task>, u: Task): (r: seq<Task>)
    ensures |r| == |ts|
    ensures forall i :: 0 <= i < |ts| && ts[i].id != u.id ==> r[i] == ts[i]
    ensures forall i :: 0 <= i < |ts| && ts[i].id == u.id ==>
      r[i].(tags := u.tags) == u && r[i].tags == (if u.tags.Some? then u.tags else ts[i].tags)
  {
    Map((t: Task) => if t.id == u.id then MergeTask(t, u) else t, ts)
  }

  // ---- properties of the transformations ----

  /** Appending keeps ids unique exactly when the new id is not taken: there is no duplicate check. */
  lemma AddUniqueIff(ts: seq<Task>, t: Task)
    ensures UniqueIds(ts + [t]) <==> UniqueIds(ts) && !HasId(ts, t.id)
  {
    var s := ts + [t];
    if UniqueIds(s) {
      forall i | 0 <= i < |ts| ensures ts[i].id != t.id {
        assert s[i] == ts[i] && s[|ts|] == t;
      }
      forall i, j | 0 <= i < j < |ts| ensures ts[i].id != ts[j].id {
        assert s[i] == ts[i] && s[j] == ts[j];
      }
    }
  }

  /** `removeTask` keeps each task whose id differs, with all its occurrences, in the original order. */
  lemma RemoveByIdExactly(ts: seq<Task>, id: string, t: Task)
    ensures Count(RemoveById(ts, id), t) == if t.id != id then Count(ts, t) else 0
    ensures IsSubsequence(RemoveById(ts, id), ts)
  {
    FilterCount((x: Task) => x.id != id, ts, t);
    FilterIsSubsequence((x: Task) => x.id != id, ts);
  }

  lemma RemoveAbsentNoOp(ts: seq<Task>, id: string)
    requires !HasId(ts, id)
    ensures RemoveById(ts, id) == ts
  {
    FilterKeepsAll((x: Task) => x.id != id, ts);
  }

  lemma RemoveIdempotent(ts: seq<Task>, id: string)
    ensures RemoveById(RemoveById(ts, id), id) == RemoveById(ts, id)
  {
    FilterIdempotent((x: Task) => x.id != id, ts);
  }

  lemma {:induction false} RemovePreservesUniqueIds(ts: seq<Task>, id: string)
    requires UniqueIds(ts)
    ensures UniqueIds(RemoveById(ts, id))
  {
    if ts != [] {
      var t, rest := ts[0], ts[1..];
      assert ts == [t] + rest;
      UniqueIdsCons(t, rest);
      RemovePreservesUniqueIds(rest, id);
      var r := RemoveById(rest, id);
      if t.id != id {
        assert RemoveById(ts, id) == [t] + r;
        UniqueIdsCons(t, r);
      } else {
        assert RemoveById(ts, id) == r;
      }
    }
  }

  lemma ToggleTwice(ts: seq<Task>, id: string)
    ensures ToggleById(ToggleById(ts, id), id) == ts
  {
  }

  lemma ToggleAbsentNoOp(ts: seq<Task>, id: string)
    requires !HasId(ts, id)
    ensures ToggleById(ts, id) == ts
  {
  }

  lemma TogglePreservesUniqueIds(ts: seq<Task>, id: string)
    requires UniqueIds(ts)
    ensures UniqueIds(ToggleById(ts, id))
  {
  }

  lemma UpdateAbsentNoOp(ts: seq<Task>, u: Task)
    requires !HasId(ts, u.id)
    ensures UpdateById(ts, u) == ts
  {
  }

  lemma UpdateIdempotent(ts: seq<Task>, u: Task)
    ensures UpdateById(UpdateById(ts, u), u) == UpdateById(ts, u)
  {
  }

  lemma UpdatePreservesUniqueIds(ts: seq<Task>, u: Task)
    requires UniqueIds(ts)
    ensures UniqueIds(UpdateById(ts, u))
  {
  }

  /**
   * Adding a task with a fresh id and then updating it to a new title
   * changes that title and nothing else, `id` and `createdAt` included.
   */
  lemma AddThenRetitle(ts: seq<Task>, t: Task, title: string)
    requires !HasId(ts, t.id)
    ensures UpdateById(ts + [t], t.(title := title)) == ts + [t.(title := title)]
  {
    var r := UpdateById(ts + [t], t.(title := title));
    assert forall i :: 0 <= i < |ts| ==> (ts + [t])[i] == ts[i];
  }

  /** The store itself does not protect `createdAt`: an update carries the argument's value in. */
  lemma UpdateReplacesCreatedAt(ts: seq<Task>, u: Task, i: nat)
    requires i < |ts| && ts[i].id == u.id
    ensures UpdateById(ts, u)[i].createdAt == u.createdAt
  {
  }

  // ---- the store ----

  class TaskStore {
    var tasks: seq<Task>
    var filters: Filters
    var taskToEdit: Option<Task>

    constructor ()
      ensures tasks == [] && filters == InitialFilters && taskToEdit == None
    {
      tasks := [];
      filters := InitialFilters;
      taskToEdit := None;
    }

    method AddTask(task: Task)
      modifies this
      ensures tasks == old(tasks) + [task]
      ensures filters == old(filters) && taskToEdit == old(taskToEdit)
    {
      tasks := tasks + [task];
    }

    method RemoveTask(id: string)
      modifies this
      ensures tasks == RemoveById(old(tasks), id)
      ensures filters == old(filters) && taskToEdit == old(taskToEdit)
    {
      tasks := RemoveById(tasks, id);
    }

    method ToggleCompleted(id: string)
      modifies this
      ensures tasks == ToggleById(old(tasks), id)
      ensures filters == old(filters) && taskToEdit == old(taskToEdit)
    {
      tasks := ToggleById(tasks, id);
    }

    method UpdateTask(updated: Task)
      modifies this
      ensures tasks == UpdateById(old(tasks), updated)
      ensures filters == old(filters) && taskToEdit == old(taskToEdit)
    {
      tasks := UpdateById(tasks, updated);
    }

    method SetFilters(patch: FiltersPatch)
      modifies this
      ensures filters == MergeFilters(old(filters), patch)
      ensures tasks == old(tasks) && taskToEdit == old(taskToEdit)
    {
      filters := MergeFilters(filters, patch);
    }

    method ResetFilters()
      modifies this
      ensures filters == InitialFilters
      ensures tasks == old(tasks) && taskToEdit == old(taskToEdit)
    {
      filters := InitialFilters;
    }

    method SetTaskToEdit(task: Option<Task>)
      modifies this
      ensures taskToEdit == task
      ensures tasks == old(tasks) && filters == old(filters)
    {
      taskToEdit := task;
    }

    method ClearTaskToEdit()
      modifies this
      ensures taskToEdit == None
      ensures tasks == old(tasks) && filters == old(filters)
    {
      taskToEdit := None;
    }
  }
}
