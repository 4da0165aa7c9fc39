/**
 * The entities of the to-do application: a task record and its priority.
 * Instants (the due date and the creation time) are abstract integer
 * timestamps, milliseconds since an epoch; the ISO strings the application
 * stores are a lossless rendering of such an instant.
 */
module Types {

  datatype Option<+T> = None | Some(value: T)

  /** A task's priority: a closed union of exactly three values. */
  datatype Priority = Low | Medium | High

  type Instant = int

  /**
   * A to-do item. `tags` is the only optional field, and an absent tag list
   * (`None`) is a different value from an empty one (`Some([])`). The id is a
   * bare string: nothing in the type makes it unique, see `UniqueIds`.
   */
  datatype Task = Task(
    id: string,
    title: string,
    completed: bool,
    dueDate: Instant,
    priority: Priority,
    tags: Option<seq<string>>,
    createdAt: Instant)

  /** The string literal by which the application names a priority. */
  function PriorityName(p: Priority): string
  {
    match p
    case Low => "low"
    case Medium => "medium"
    case High => "high"
  }

  /** Reads a priority literal back; exactly three strings are priorities. */
  function ParsePriority(s: string): (r: Option<Priority>)
    ensures r.Some? <==> (s == "low" || s == "medium" || s == "high")
    ensures r.Some? ==> PriorityName(r.value) == s
  {
    if s == "low" then Some(Low)
    else if s == "medium" then Some(Medium)
    else if s == "high" then Some(High)
    else None
  }

  lemma PriorityNameRoundTrip(p: Priority)
    ensures ParsePriority(PriorityName(p)) == Some(p)
  {
  }

  /** The tag list of a task, with an absent list read as empty (`task.tags || []`). */
  function TagList(t: Task): seq<string>
  {
    match t.tags
    case Some(ts) => ts
    case None => []
  }

  /** No two entries of the collection share an id. */
  predicate UniqueIds(ts: seq<Task>)
  {
    forall i, j :: 0 <= i < j < |ts| ==> ts[i].id != ts[j].id
  }

  /** Some entry of the collection has the given id. */
  predicate HasId(ts: seq<Task>, id: string)
  {
    exists i :: 0 <= i < |ts| && ts[i].id == id
  }

  lemma {:induction false} UniqueIdsCons(t: Task, rest: seq<Task>)
    ensures UniqueIds([t] + rest) <==> !HasId(rest, t.id) && UniqueIds(rest)
  {
    var s := [t] + rest;
    if UniqueIds(s) {
      forall i | 0 <= i < |rest| ensures rest[i].id != t.id {
        assert s[0] == t && s[i + 1] == rest[i];
      }
      forall i, j | 0 <= i < j < |rest| ensures rest[i].id != rest[j].id {
        assert s[i + 1] == rest[i] && s[j + 1] == rest[j];
      }
    }
    if !HasId(rest, t.id) && UniqueIds(rest) {
      forall i, j | 0 <= i < j < |s| ensures s[i].id != s[j].id {
        assert s[j] == rest[j - 1];
        if i > 0 {
          assert s[i] == rest[i - 1];
        }
      }
    }
  }
}
