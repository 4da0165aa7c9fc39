/**
 * The filter store: the five filter criteria the task list reads, one setter
 * per criterion and a reset. No setter validates or normalises its argument.
 */
module FilterStore {
  import opened Types

  datatype Status = All | Completed | Uncompleted

  datatype DateRange = AllDates | Today | Week | Month | Overdue

  datatype Criteria = Criteria(
    status: Status,
    priority: seq<Priority>,
    dateRange: DateRange,
    search: string,
    tags: seq<string>)

  /** The initial state, which `resetFilters` restores. */
  const Default := Criteria(All, [], AllDates, "", [])

  /** What the store's methods do, as values: one setter per field, and the reset. */
  datatype Action =
    | SetStatus(newStatus: Status)
    | SetPriority(newPriority: seq<Priority>)
    | SetDateRange(newRange: DateRange)
    | SetSearch(newSearch: string)
    | SetTags(newTags: seq<string>)
    | ResetFilters

  datatype Field = StatusField | PriorityField | DateRangeField | SearchField | TagsField

  /** The value of one field, tagged by the field it belongs to. */
  datatype FieldValue =
    | StatusValue(status: Status)
    | PriorityValue(priority: seq<Priority>)
    | DateRangeValue(range: DateRange)
    | SearchValue(search: string)
    | TagsValue(tags: seq<string>)

  function Get(c: Criteria, f: Field): FieldValue
  {
    match f
    case StatusField => StatusValue(c.status)
    case PriorityField => PriorityValue(c.priority)
    case DateRangeField => DateRangeValue(c.dateRange)
    case SearchField => SearchValue(c.search)
    case TagsField => TagsValue(c.tags)
  }

  /** The fields an action writes. */
  function Targets(a: Action): set<Field>
  {
    match a
    case SetStatus(_) => {StatusField}
    case SetPriority(_) => {PriorityField}
    case SetDateRange(_) => {DateRangeField}
    case SetSearch(_) => {SearchField}
    case SetTags(_) => {TagsField}
    case ResetFilters => {StatusField, PriorityField, DateRangeField, SearchField, TagsField}
  }

  /** The value an action writes into a field it targets: a setter's argument, or the default. */
  function Written(a: Action, f: Field): FieldValue
    requires f in Targets(a)
  {
    match a
    case SetStatus(s) => StatusValue(s)
    case SetPriority(ps) => PriorityValue(ps)
    case SetDateRange(d) => DateRangeValue(d)
    case SetSearch(q) => SearchValue(q)
    case SetTags(tg) => TagsValue(tg)
    case ResetFilters => Get(Default, f)
  }

  /**
   * One call of a store method: every field the action targets now holds
   * the value the action carries, verbatim, and every other field is as it was.
   */
  function Step(c: Criteria, a: Action): (r: Criteria)
    ensures forall f :: f in Targets(a) ==> Get(r, f) == Written(a, f)
    ensures forall f :: f !in Targets(a) ==> Get(r, f) == Get(c, f)
  {
    match a
    case SetStatus(s) => c.(status := s)
    case SetPriority(ps) => c.(priority := ps)
    case SetDateRange(d) => c.(dateRange := d)
    case SetSearch(q) => c.(search := q)
    case SetTags(tg) => c.(tags := tg)
    case ResetFilters => Default
  }

  /** A sequence of store calls, applied in order. */
  function Run(c: Criteria, actions: seq<Action>): Criteria
    decreases |actions|
  {
    if actions == [] then c else Run(Step(c, actions[0]), actions[1..])
  }

  /** The history of a single field under a sequence of calls, ignoring the other fields. */
  function FieldRun(v: FieldValue, actions: seq<Action>, f: Field): FieldValue
    decreases |actions|
  {
    if actions == [] then v
    else FieldRun(if f in Targets(actions[0]) then Written(actions[0], f) else v, actions[1..], f)
  }

  /** Fields evolve independently: each one's final value depends only on its own writes. */
  lemma {:induction false} RunPerField(c: Criteria, actions: seq<Action>, f: Field)
    ensures Get(Run(c, actions), f) == FieldRun(Get(c, f), actions, f)
    decreases |actions|
  {
    if actions != [] {
      RunPerField(Step(c, actions[0]), actions[1..], f);
    }
  }

  lemma {:induction false} RunConcat(c: Criteria, a: seq<Action>, b: seq<Action>)
    ensures Run(c, a + b) == Run(Run(c, a), b)
    decreases |a|
  {
    if a != [] {
      assert (a + b)[0] == a[0];
      assert (a + b)[1..] == a[1..] + b;
      RunConcat(Step(c, a[0]), a[1..], b);
    } else {
      assert a + b == b;
    }
  }

  /** A reset, after any sequence of calls whatever, restores the initial state. */
  lemma ResetAfterAnyRun(c: Criteria, actions: seq<Action>)
    ensures Run(c, actions + [ResetFilters]) == Default
  {
    RunConcat(c, actions, [ResetFilters]);
  }

  lemma ResetIdempotent(c: Criteria)
    ensures Step(Step(c, ResetFilters), ResetFilters) == Step(c, ResetFilters)
  {
  }

  /** A later call that writes at least the same fields hides an earlier one entirely. */
  lemma LaterWriteWins(c: Criteria, a: Action, b: Action)
    requires Targets(a) <= Targets(b)
    ensures Step(Step(c, a), b) == Step(c, b)
  {
  }

  /** Calls that write different fields can be made in either order. */
  lemma DisjointWritesCommute(c: Criteria, a: Action, b: Action)
    requires Targets(a) !! Targets(b)
    ensures Step(Step(c, a), b) == Step(Step(c, b), a)
  {
  }

  class FilterStore {
    var status: Status
    var priority: seq<Priority>
    var dateRange: DateRange
    var search: string
    var tags: seq<string>

    function Snapshot(): Criteria
      reads this
    {
      Criteria(status, priority, dateRange, search, tags)
    }

    constructor ()
      ensures Snapshot() == Default
    {
      status, priority, dateRange, search, tags := All, [], AllDates, "", [];
    }

    method SetStatus(s: Status)
      modifies this
      ensures status == s
      ensures priority == old(priority) && dateRange == old(dateRange) && search == old(search) && tags == old(tags)
      ensures Snapshot() == Step(old(Snapshot()), Action.SetStatus(s))
    {
      status := s;
    }

    method SetPriority(ps: seq<Priority>)
      modifies this
      ensures priority == ps
      ensures status == old(status) && dateRange == old(dateRange) && search == old(search) && tags == old(tags)
      ensures Snapshot() == Step(old(Snapshot()), Action.SetPriority(ps))
    {
      priority := ps;
    }

    method SetDateRange(d: DateRange)
      modifies this
      ensures dateRange == d
      ensures status == old(status) && priority == old(priority) && search == old(search) && tags == old(tags)
      ensures Snapshot() == Step(old(Snapshot()), Action.SetDateRange(d))
    {
      dateRange := d;
    }

    method SetSearch(text: string)
      modifies this
      ensures search == text
      ensures status == old(status) && priority == old(priority) && dateRange == old(dateRange) && tags == old(tags)
      ensures Snapshot() == Step(old(Snapshot()), Action.SetSearch(text))
    {
      search := text;
    }

    method SetTags(tg: seq<string>)
      modifies this
      ensures tags == tg
      ensures status == old(status) && priority == old(priority) && dateRange == old(dateRange) && search == old(search)
      ensures Snapshot() == Step(old(Snapshot()), Action.SetTags(tg))
    {
      tags := tg;
    }

    method ResetFilters()
      modifies this
      ensures Snapshot() == Default
      ensures Snapshot() == Step(old(Snapshot()), Action.ResetFilters)
    {
      status, priority, dateRange, search, tags := All, [], AllDates, "", [];
    }

    /** Performs the store call an action stands for. */
    method Dispatch(a: Action)
      modifies this
      ensures Snapshot() == Step(old(Snapshot()), a)
    {
      match a
      case SetStatus(s) => SetStatus(s);
      case SetPriority(ps) => SetPriority(ps);
      case SetDateRange(d) => SetDateRange(d);
      case SetSearch(q) => SetSearch(q);
      case SetTags(tg) => SetTags(tg);
      case ResetFilters => ResetFilters();
    }
  }
}
