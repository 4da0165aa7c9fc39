/**
 * The visible-list evaluator of the task list: which tasks the list shows
 * for the current filter criteria and the current time.
 */
module TaskList {
  import opened Types
  import opened Seqs
  import opened Text
  import opened FilterStore

  /**
   * The instants the date-range check compares a due date against: the
   * present, the start of today and of tomorrow, and the first and last
   * instants of the current week and month. Calendar arithmetic (locale,
   * time zone, week start) is the caller's.
   */
  datatype Clock = Clock(
    now: Instant,
    todayStart: Instant,
    tomorrowStart: Instant,
    weekStart: Instant,
    weekEnd: Instant,
    monthStart: Instant,
    monthEnd: Instant)

  /** Today lies within the current week and the current month, and `now` within today. */
  predicate ValidClock(k: Clock)
  {
    && k.todayStart <= k.now < k.tomorrowStart
    && k.weekStart <= k.todayStart && k.tomorrowStart <= k.weekEnd + 1
    && k.monthStart <= k.todayStart && k.tomorrowStart <= k.monthEnd + 1
  }

  /** `date.isSame(now, 'day')`. */
  predicate SameDay(due: Instant, k: Clock)
  {
    k.todayStart <= due < k.tomorrowStart
  }

  /** `date.isBefore(now, 'day')`: the due date's day ends before today begins. */
  predicate BeforeToday(due: Instant, k: Clock)
  {
    due < k.todayStart
  }

  /** `isInDateRange`: week and month are strict at both ends. */
  function InDateRange(due: Instant, range: DateRange, k: Clock): (r: bool)
    ensures range == AllDates ==> r
    ensures range == Overdue ==> (r <==> due < k.todayStart)
    ensures range == Today ==> (r <==> !(due < k.todayStart) && due < k.tomorrowStart)
  {
    match range
    case Today => SameDay(due, k)
    case Week => k.weekStart < due && due < k.weekEnd
    case Month => k.monthStart < due && due < k.monthEnd
    case Overdue => BeforeToday(due, k) && !SameDay(due, k)
    case AllDates => true
  }

  predicate StatusOk(t: Task, s: Status)
  {
    !(s == Completed && !t.completed) && !(s == Uncompleted && t.completed)
  }

  predicate PriorityOk(t: Task, ps: seq<Priority>)
  {
    !(|ps| > 0 && t.priority !in ps)
  }

  /** A task shares a tag with the list; an absent tag list shares nothing. */
  predicate SharesTag(t: Task, tg: seq<string>)
  {
    t.tags.Some? && exists x :: x in t.tags.value && x in tg
  }

  predicate TagsOk(t: Task, tg: seq<string>)
  {
    !(|tg| > 0 && !SharesTag(t, tg))
  }

  /** `task.title.toLowerCase().includes(searchText.trim().toLowerCase())`. */
  predicate SearchOk(t: Task, q: string)
  {
    Contains(Lower(t.title), Lower(Trim(q)))
  }

  /** The first `.filter` of the chain: status, priority, date range and tags. */
  predicate PassesFirstFilter(t: Task, c: Criteria, k: Clock)
  {
    StatusOk(t, c.status) && PriorityOk(t, c.priority) && InDateRange(t.dueDate, c.dateRange, k) && TagsOk(t, c.tags)
  }

  /** All five checks together. */
  predicate Included(t: Task, c: Criteria, k: Clock)
  {
    PassesFirstFilter(t, c, k) && SearchOk(t, c.search)
  }

  /** `filteredTasks`: the first filter, then the search filter. */
  function Visible(ts: seq<Task>, c: Criteria, k: Clock): (r: seq<Task>)
    ensures |r| <= |ts|
    ensures forall t :: t in r <==> t in ts && Included(t, c, k)
  {
    Filter((t: Task) => SearchOk(t, c.search), Filter((t: Task) => PassesFirstFilter(t, c, k), ts))
  }

  // ---- the visible list as a whole ----

  /** The two chained filters are one filter by `Included`. */
  lemma VisibleIsIncluded(ts: seq<Task>, c: Criteria, k: Clock)
    ensures Visible(ts, c, k) == Filter((t: Task) => Included(t, c, k), ts)
  {
    FilterFilter((t: Task) => PassesFirstFilter(t, c, k), (t: Task) => SearchOk(t, c.search),
                 (t: Task) => Included(t, c, k), ts);
  }

  /** The visible list keeps every included task with all its occurrences, in order, and nothing else. */
  lemma VisibleExactly(ts: seq<Task>, c: Criteria, k: Clock, t: Task)
    ensures IsSubsequence(Visible(ts, c, k), ts)
    ensures Count(Visible(ts, c, k), t) == if Included(t, c, k) then Count(ts, t) else 0
  {
    VisibleIsIncluded(ts, c, k);
    FilterIsSubsequence((x: Task) => Included(x, c, k), ts);
    FilterCount((x: Task) => Included(x, c, k), ts, t);
  }

  /** Running the search filter first gives the same list. */
  lemma CheckOrderIrrelevant(ts: seq<Task>, c: Criteria, k: Clock)
    ensures Filter((t: Task) => PassesFirstFilter(t, c, k), Filter((t: Task) => SearchOk(t, c.search), ts))
         == Visible(ts, c, k)
  {
    VisibleIsIncluded(ts, c, k);
    FilterFilter((t: Task) => SearchOk(t, c.search), (t: Task) => PassesFirstFilter(t, c, k),
                 (t: Task) => Included(t, c, k), ts);
  }

  /** The empty search text is a substring of every title. */
  lemma EmptySearchMatches(t: Task)
    ensures SearchOk(t, "")
  {
    assert Trim("") == "";
    assert Lower("") == "";
    ContainsEmpty(Lower(t.title));
  }

  /** Under the default criteria every task passes every check. */
  lemma DefaultIncludes(t: Task, k: Clock)
    ensures Included(t, Default, k)
  {
    EmptySearchMatches(t);
  }

  lemma DefaultShowsAll(ts: seq<Task>, k: Clock)
    ensures Visible(ts, Default, k) == ts
  {
    forall t | t in ts ensures Included(t, Default, k) {
      DefaultIncludes(t, k);
    }
    VisibleIsIncluded(ts, Default, k);
    FilterKeepsAll((t: Task) => Included(t, Default, k), ts);
  }

  // ---- each criterion on its own, the other four at their defaults ----

  /** With an empty search text a task is included exactly when it passes the first filter. */
  lemma IncludedWithoutSearch(t: Task, c: Criteria, k: Clock)
    requires c.search == ""
    ensures Included(t, c, k) == PassesFirstFilter(t, c, k)
  {
    EmptySearchMatches(t);
  }

  lemma StatusCriterion(t: Task, c: Criteria, k: Clock)
    requires c.priority == [] && c.dateRange == AllDates && c.tags == [] && c.search == ""
    ensures c.status == Completed ==> (Included(t, c, k) <==> t.completed)
    ensures c.status == Uncompleted ==> (Included(t, c, k) <==> !t.completed)
    ensures c.status == All ==> Included(t, c, k)
  {
    IncludedWithoutSearch(t, c, k);
  }

  lemma PriorityCriterion(t: Task, c: Criteria, k: Clock)
    requires c.status == All && c.dateRange == AllDates && c.tags == [] && c.search == ""
    ensures Included(t, c, k) <==> c.priority == [] || t.priority in c.priority
  {
    IncludedWithoutSearch(t, c, k);
  }

  /** A non-empty tag filter needs a shared tag, so absent and empty tag lists both fail it. */
  lemma TagCriterion(t: Task, c: Criteria, k: Clock)
    requires c.status == All && c.priority == [] && c.dateRange == AllDates && c.search == ""
    ensures Included(t, c, k) <==>
      c.tags == [] || (t.tags.Some? && exists x :: x in t.tags.value && x in c.tags)
    ensures c.tags != [] && (t.tags == None || t.tags == Some([])) ==> !Included(t, c, k)
  {
    EmptySearchMatches(t);
  }

  lemma DateCriterion(t: Task, c: Criteria, k: Clock)
    requires c.status == All && c.priority == [] && c.tags == [] && c.search == ""
    ensures Included(t, c, k) <==> InDateRange(t.dueDate, c.dateRange, k)
  {
    EmptySearchMatches(t);
  }

  /** With the other four criteria at their defaults, only the search check decides. */
  lemma SearchCriterion(t: Task, c: Criteria, k: Clock)
    requires c.status == All && c.priority == [] && c.dateRange == AllDates && c.tags == []
    ensures Included(t, c, k) <==> SearchOk(t, c.search)
  {
    assert PassesFirstFilter(t, c, k);
  }

  /** The search check is a plain substring test on the lower-cased title. */
  lemma SearchIsSubstring(t: Task, q: string)
    ensures SearchOk(t, q) <==> exists i :: OccursAt(Lower(t.title), Lower(Trim(q)), i)
  {
    ContainsAt(Lower(t.title), Lower(Trim(q)));
  }

  /** White space around the search text does not change the outcome. */
  lemma SearchIgnoresPadding(t: Task, w1: string, q: string, w2: string)
    requires forall i :: 0 <= i < |w1| ==> IsWhiteSpace(w1[i])
    requires forall i :: 0 <= i < |w2| ==> IsWhiteSpace(w2[i])
    ensures SearchOk(t, w1 + q + w2) == SearchOk(t, q)
  {
    TrimIgnoresPadding(w1, q, w2);
  }

  /** Letter case in the title does not change the outcome. */
  lemma SearchIgnoresTitleCase(t: Task, q: string)
    ensures SearchOk(t.(title := Lower(t.title)), q) == SearchOk(t, q)
  {
    LowerIdempotent(t.title);
  }

  // ---- date ranges ----

  lemma TodayOverdueExclusive(due: Instant, k: Clock)
    ensures !(InDateRange(due, Today, k) && InDateRange(due, Overdue, k))
  {
  }

  /**
   * The strict bounds exclude the first instant of the week: on the first day
   * of a week, a task due at that day's first instant is due today but not
   * this week.
   */
  lemma WeekExcludesItsFirstInstant(k: Clock)
    requires ValidClock(k) && k.todayStart == k.weekStart
    ensures InDateRange(k.weekStart, Today, k) && !InDateRange(k.weekStart, Week, k)
  {
  }

  /** Off the first and last instants of the week and the month, a task due today is due this week and this month. */
  lemma TodayInsideWeekAndMonth(due: Instant, k: Clock)
    requires ValidClock(k) && InDateRange(due, Today, k)
    requires due != k.weekStart && due != k.weekEnd && due != k.monthStart && due != k.monthEnd
    ensures InDateRange(due, Week, k) && InDateRange(due, Month, k)
  {
  }

  // ---- worked scenarios ----

  /** A new task due today is shown by default and hidden once only completed tasks are shown. */
  lemma ScenarioNewTaskStatus(t: Task, k: Clock)
    requires !t.completed && SameDay(t.dueDate, k)
    ensures Visible([t], Default, k) == [t]
    ensures Visible([t], Default.(status := Completed), k) == []
  {
    DefaultShowsAll([t], k);
    VisibleIsIncluded([t], Default.(status := Completed), k);
  }

  /** Of a task due yesterday and one due today, `overdue` shows only the first. */
  lemma ScenarioOverdue(yesterday: Task, today: Task, k: Clock)
    requires yesterday.dueDate < k.todayStart && SameDay(today.dueDate, k)
    ensures Visible([yesterday, today], Default.(dateRange := Overdue), k) == [yesterday]
  {
    var c := Default.(dateRange := Overdue);
    var p := (t: Task) => Included(t, c, k);
    DateCriterion(yesterday, c, k);
    DateCriterion(today, c, k);
    VisibleIsIncluded([yesterday, today], c, k);
    assert [yesterday, today][1..] == [today];
    assert Filter(p, [today]) == [] by {
      assert [today][1..] == [];
    }
  }

  /** A task tagged work and urgent is shown for the tag urgent and hidden for the tag home. */
  lemma ScenarioTags(t: Task, k: Clock)
    requires t.tags == Some(["work", "urgent"])
    ensures Visible([t], Default.(tags := ["urgent"]), k) == [t]
    ensures Visible([t], Default.(tags := ["home"]), k) == []
  {
    TagCriterion(t, Default.(tags := ["urgent"]), k);
    TagCriterion(t, Default.(tags := ["home"]), k);
    assert "urgent" in t.tags.value && "urgent" in ["urgent"];
    VisibleIsIncluded([t], Default.(tags := ["urgent"]), k);
    VisibleIsIncluded([t], Default.(tags := ["home"]), k);
  }
}
