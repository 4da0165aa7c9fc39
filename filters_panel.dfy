/**
 * The filter panel's logic: the closable chips it shows for the active
 * criteria, and the filter-store call each chip's close button makes. The
 * tag options the panel offers are `TaskTags.AllTags` of the stored tasks.
 */
module FiltersPanel {
  import opened Types
  import opened Seqs
  import opened FilterStore

  /** One closable chip of the active-filters row. */
  datatype Chip =
    | StatusChip(status: Status)
    | PriorityChip(priority: Priority)
    | DateChip(range: DateRange)
    | TagChip(tag: string)

  /** The status chip, shown only for a status other than `all`. */
  function StatusChips(c: Criteria): seq<Chip>
  {
    if c.status != All then [StatusChip(c.status)] else []
  }

  /** The date chip, shown only for a date range other than `all`. */
  function DateChips(c: Criteria): seq<Chip>
  {
    if c.dateRange != AllDates then [DateChip(c.dateRange)] else []
  }

  /** One chip per selected priority, in selection order. */
  function PriorityChips(ps: seq<Priority>): seq<Chip>
  {
    Map((p: Priority) => PriorityChip(p), ps)
  }

  /** One chip per selected tag, in selection order. */
  function TagChips(tg: seq<string>): seq<Chip>
  {
    Map((g: string) => TagChip(g), tg)
  }

  /** The chips in display order: status, one per selected priority, date, one per selected tag. */
  function Chips(c: Criteria): seq<Chip>
  {
    StatusChips(c) + PriorityChips(c.priority) + DateChips(c) + TagChips(c.tags)
  }

  /** The store call a chip's close button makes. */
  function CloseChip(c: Criteria, chip: Chip): (a: Action)
    ensures chip.StatusChip? ==> Targets(a) == {StatusField} && Get(Step(c, a), StatusField) == StatusValue(All)
    ensures chip.PriorityChip? ==> Targets(a) == {PriorityField}
    ensures chip.DateChip? ==> Targets(a) == {DateRangeField} && Get(Step(c, a), DateRangeField) == DateRangeValue(AllDates)
    ensures chip.TagChip? ==> Targets(a) == {TagsField}
  {
    match chip
    case StatusChip(_) => SetStatus(All)
    case PriorityChip(p) => SetPriority(Without(c.priority, p))
    case DateChip(_) => SetDateRange(AllDates)
    case TagChip(g) => SetTags(Without(c.tags, g))
  }

  /**
   * Which chips are shown: a status chip exactly when the status is not
   * `all`, and then only for that status; likewise for the date range; and
   * each priority and each tag as many times as it is selected.
   */
  lemma ChipsShown(c: Criteria)
    ensures StatusChip(c.status) in Chips(c) <==> c.status != All
    ensures forall s :: s != c.status ==> StatusChip(s) !in Chips(c)
    ensures DateChip(c.dateRange) in Chips(c) <==> c.dateRange != AllDates
    ensures forall d :: d != c.dateRange ==> DateChip(d) !in Chips(c)
    ensures forall p :: Count(Chips(c), PriorityChip(p)) == Count(c.priority, p)
    ensures forall g :: Count(Chips(c), TagChip(g)) == Count(c.tags, g)
  {
    var pf := (p: Priority) => PriorityChip(p);
    var tf := (g: string) => TagChip(g);
    var s, ps, d, tg := StatusChips(c), PriorityChips(c.priority), DateChips(c), TagChips(c.tags);
    forall p ensures Count(Chips(c), PriorityChip(p)) == Count(c.priority, p) {
      var x := PriorityChip(p);
      CountConcat(s + ps + d, tg, x);
      CountConcat(s + ps, d, x);
      CountConcat(s, ps, x);
      CountMap(pf, c.priority, p);
      CountPositive(s, x);
      CountPositive(d, x);
      CountPositive(tg, x);
    }
    forall g ensures Count(Chips(c), TagChip(g)) == Count(c.tags, g) {
      var x := TagChip(g);
      CountConcat(s + ps + d, tg, x);
      CountConcat(s + ps, d, x);
      CountConcat(s, ps, x);
      CountMap(tf, c.tags, g);
      CountPositive(s, x);
      CountPositive(d, x);
      CountPositive(ps, x);
    }
  }

  /** Closing the status chip sets the status to `all` and changes nothing else. */
  lemma CloseStatusChip(c: Criteria, s: Status)
    ensures Step(c, CloseChip(c, StatusChip(s))) == c.(status := All)
  {
  }

  /** Closing the date chip sets the date range to `all` and changes nothing else. */
  lemma CloseDateChip(c: Criteria, d: DateRange)
    ensures Step(c, CloseChip(c, DateChip(d))) == c.(dateRange := AllDates)
  {
  }

  /**
   * Closing a priority chip removes every occurrence of that priority and
   * keeps the other priorities, as often as they occurred and in order; no
   * other field changes.
   */
  lemma ClosePriorityChip(c: Criteria, p: Priority)
    ensures var r := Step(c, CloseChip(c, PriorityChip(p)));
      && r == c.(priority := r.priority)
      && p !in r.priority
      && (forall q :: q != p ==> Count(r.priority, q) == Count(c.priority, q))
      && IsSubsequence(r.priority, c.priority)
  {
  }

  /** Closing a tag chip removes every occurrence of that tag, keeps the other tags in order, and nothing else changes. */
  lemma CloseTagChip(c: Criteria, g: string)
    ensures var r := Step(c, CloseChip(c, TagChip(g)));
      && r == c.(tags := r.tags)
      && g !in r.tags
      && (forall h :: h != g ==> Count(r.tags, h) == Count(c.tags, h))
      && IsSubsequence(r.tags, c.tags)
  {
  }

  /** Removing a chip from the row removes it from each of the four groups. */
  lemma WithoutChips(c: Criteria, chip: Chip)
    ensures Without(Chips(c), chip)
         == Without(StatusChips(c), chip) + Without(PriorityChips(c.priority), chip)
          + Without(DateChips(c), chip) + Without(TagChips(c.tags), chip)
  {
    var s, ps, d, tg := StatusChips(c), PriorityChips(c.priority), DateChips(c), TagChips(c.tags);
    WithoutConcat(s + ps + d, tg, chip);
    WithoutConcat(s + ps, d, chip);
    WithoutConcat(s, ps, chip);
  }

  /** A chip of another kind leaves each group as it is. */
  lemma OtherKindsKept(c: Criteria, chip: Chip)
    ensures !chip.StatusChip? ==> Without(StatusChips(c), chip) == StatusChips(c)
    ensures !chip.PriorityChip? ==> Without(PriorityChips(c.priority), chip) == PriorityChips(c.priority)
    ensures !chip.DateChip? ==> Without(DateChips(c), chip) == DateChips(c)
    ensures !chip.TagChip? ==> Without(TagChips(c.tags), chip) == TagChips(c.tags)
  {
    if !chip.StatusChip? {
      WithoutAbsent(StatusChips(c), chip);
    }
    if !chip.PriorityChip? {
      WithoutAbsent(PriorityChips(c.priority), chip);
    }
    if !chip.DateChip? {
      WithoutAbsent(DateChips(c), chip);
    }
    if !chip.TagChip? {
      WithoutAbsent(TagChips(c.tags), chip);
    }
  }

  /** Removing a priority's chip from the priority group is the group of the priorities without it. */
  lemma PriorityChipsWithout(ps: seq<Priority>, p: Priority)
    ensures Without(PriorityChips(ps), PriorityChip(p)) == PriorityChips(Without(ps, p))
  {
    WithoutMap((q: Priority) => PriorityChip(q), ps, p);
  }

  /** Removing a tag's chip from the tag group is the group of the tags without it. */
  lemma TagChipsWithout(tg: seq<string>, g: string)
    ensures Without(TagChips(tg), TagChip(g)) == TagChips(Without(tg, g))
  {
    WithoutMap((h: string) => TagChip(h), tg, g);
  }

  lemma CloseShownStatusChip(c: Criteria)
    requires c.status != All
    ensures Chips(Step(c, CloseChip(c, StatusChip(c.status)))) == Without(Chips(c), StatusChip(c.status))
  {
    var chip := StatusChip(c.status);
    var c' := c.(status := All);
    assert CloseChip(c, chip) == SetStatus(All);
    assert Step(c, CloseChip(c, chip)) == c';
    assert StatusChips(c') == [] == Without(StatusChips(c), chip);
    assert DateChips(c') == DateChips(c);
    WithoutChips(c, chip);
    OtherKindsKept(c, chip);
  }

  lemma CloseShownDateChip(c: Criteria)
    requires c.dateRange != AllDates
    ensures Chips(Step(c, CloseChip(c, DateChip(c.dateRange)))) == Without(Chips(c), DateChip(c.dateRange))
  {
    var chip := DateChip(c.dateRange);
    var c' := c.(dateRange := AllDates);
    assert CloseChip(c, chip) == SetDateRange(AllDates);
    assert Step(c, CloseChip(c, chip)) == c';
    assert DateChips(c') == [] == Without(DateChips(c), chip);
    assert StatusChips(c') == StatusChips(c);
    WithoutChips(c, chip);
    OtherKindsKept(c, chip);
  }

  lemma ClosePriorityChipRemovesIt(c: Criteria, p: Priority)
    ensures Chips(Step(c, CloseChip(c, PriorityChip(p)))) == Without(Chips(c), PriorityChip(p))
  {
    var chip := PriorityChip(p);
    var c' := c.(priority := Without(c.priority, p));
    assert CloseChip(c, chip) == SetPriority(Without(c.priority, p));
    assert Step(c, CloseChip(c, chip)) == c';
    assert StatusChips(c') == StatusChips(c) && DateChips(c') == DateChips(c);
    WithoutChips(c, chip);
    OtherKindsKept(c, chip);
    PriorityChipsWithout(c.priority, p);
  }

  lemma CloseTagChipRemovesIt(c: Criteria, g: string)
    ensures Chips(Step(c, CloseChip(c, TagChip(g)))) == Without(Chips(c), TagChip(g))
  {
    var chip := TagChip(g);
    var c' := c.(tags := Without(c.tags, g));
    assert CloseChip(c, chip) == SetTags(Without(c.tags, g));
    assert Step(c, CloseChip(c, chip)) == c';
    assert StatusChips(c') == StatusChips(c) && DateChips(c') == DateChips(c);
    WithoutChips(c, chip);
    OtherKindsKept(c, chip);
    TagChipsWithout(c.tags, g);
  }

  /** Closing a shown chip shows the same chips as before, less every copy of that one. */
  lemma CloseChipRemovesIt(c: Criteria, chip: Chip)
    requires chip in Chips(c)
    ensures Chips(Step(c, CloseChip(c, chip))) == Without(Chips(c), chip)
  {
    match chip
    case StatusChip(st) =>
      ChipsShown(c);
      CloseShownStatusChip(c);
    case PriorityChip(p) =>
      ClosePriorityChipRemovesIt(c, p);
    case DateChip(dr) =>
      ChipsShown(c);
      CloseShownDateChip(c);
    case TagChip(g) =>
      CloseTagChipRemovesIt(c, g);
  }
}
