# To-do list: task state and filtering, modelled in Dafny

This project models the logic core of a small browser to-do application. That core has five parts:

- **Task record.** A task has an id, a title, a completion flag, a due date, a priority, an optional tag list and a creation time.
- **Task store.** It holds the task list, a legacy filter record and the task selected for editing. It offers append, remove, toggle and update by id, a partial filter merge, a filter reset, and edit selection.
- **Filter store.** Five criteria: status, priority list, date range, search text and tag list. Each has one setter, and there is a reset.
- **Visible-list evaluator.** It decides which tasks the list shows for the current criteria and the current time.
- **Task form and filter panel.** The form turns submitted values into a task and sends it either to an edit callback or to the store. It also limits which due dates can be picked and derives the tag vocabulary. The filter panel shows closable chips: a status chip and a date chip when those are not `all`, and one chip per selected priority and per selected tag. The search text has no chip. Closing a chip calls a store setter.

One module per source file:

| module | file | models |
|---|---|---|
| `Types` | `types.dfy` | the task record, priorities, id uniqueness as a predicate over a collection |
| `TaskStore` | `task_store.dfy` | the task store as a class; its list updates as pure sequence functions |
| `FilterStore` | `filter_store.dfy` | the filter store as a class; its calls as `Action` values with a `Step` function |
| `TaskList` | `task_list.dfy` | `isInDateRange` and the `filteredTasks` chain |
| `TaskTags` | `task_tags.dfy` | the `allTags` derivation that the form and the panel share |
| `TaskForm` | `task_form.dfy` | the `newTask` mapping, the submit dispatch and `disabledDate` |
| `FiltersPanel` | `filters_panel.dfy` | the chips and what closing each one does |
| `Seqs`, `Text` | `seqs.dfy`, `text.dfy` | `filter`, `map` and `Array.from(new Set(..))`; `trim`, `toLowerCase` and `includes` |

## Modelling choices

- **Time.** Due dates and creation times are integer instants.
- **Clock.** The evaluator reads a `Clock` record with `now` and the first instants of today and tomorrow. It also has the first and last instants of the current week and month. `ValidClock` states how these are ordered. Calendar arithmetic is outside the model.
- **Ambient values.** The generated id and the current time are parameters of the form mapping.
- **Edit callback.** `HandleSubmit` returns the task that would go to the callback, instead of calling it.
- **Tags.** A missing `tags` key is `None`. A submitted form has `tags == None` when its tag field holds no value: left untouched in create mode, or pre-filled from a task without tags.
- **The store's own filter record.** It uses its own vocabulary: `active`, a single priority or `all`. Nothing else reads it, and it is modelled separately from the filter store.
- **Where the code and the design intent differ, the model follows the code:**
  - `addTask` does not check for duplicate ids.
  - `updateTask` takes `createdAt` from its argument. Only the form keeps the creation time, by copying it.
  - The week and month ranges are strict at both ends, down to the instant.

## Model

| member | source | states |
|---|---|---|
| Types.ParsePriority | src/core/types.ts:2 | exactly the three literals `low`, `medium`, `high` are priorities, and each reads back to the priority it names |
| Types.PriorityNameRoundTrip | src/core/types.ts:2 | every priority's literal parses back to that priority |
| Types.UniqueIdsCons | src/core/types.ts:6 | a collection with a task in front has unique ids iff the rest does and does not already use that task's id |
| TaskStore.MergeFilters | src/storage/useTaskStore.ts:109-113 | each field present in the patch overwrites the old value, each missing field keeps it |
| TaskStore.MergeEmptyPatch | src/storage/useTaskStore.ts:109-113 | merging a patch with no fields leaves the filters unchanged |
| TaskStore.MergeTwice | src/storage/useTaskStore.ts:109-113 | two merges in a row equal one merge with the later patch winning field by field |
| TaskStore.MergeIdempotent | src/storage/useTaskStore.ts:109-113 | merging the same patch twice is the same as merging it once |
| TaskStore.RemoveById | src/storage/useTaskStore.ts:86-90 | a task is in the result iff it was in the list and its id differs from the removed one |
| TaskStore.RemoveByIdExactly | src/storage/useTaskStore.ts:86-90 | every task with a different id keeps all its occurrences, and the result is an order-preserving subsequence |
| TaskStore.RemoveAbsentNoOp | src/storage/useTaskStore.ts:86-90 | removing an id no task has leaves the list unchanged |
| TaskStore.RemoveIdempotent | src/storage/useTaskStore.ts:86-90 | removing the same id twice equals removing it once |
| TaskStore.RemovePreservesUniqueIds | src/storage/useTaskStore.ts:86-90 | unique ids stay unique after a removal |
| TaskStore.ToggleById | src/storage/useTaskStore.ts:92-98 | length and positions kept; each entry differs from the old one at most in `completed`, which flips exactly on the entries with the matching id |
| TaskStore.ToggleTwice | src/storage/useTaskStore.ts:92-98 | toggling the same id twice restores the original list |
| TaskStore.ToggleAbsentNoOp | src/storage/useTaskStore.ts:92-98 | toggling an id no task has leaves the list unchanged |
| TaskStore.TogglePreservesUniqueIds | src/storage/useTaskStore.ts:92-98 | unique ids stay unique after a toggle |
| TaskStore.MergeTask | src/storage/useTaskStore.ts:104 | `{ ...task, ...updatedTask }`: an update that carries tags is taken whole; one without tags is taken with the old task's tags kept, because an absent key does not overwrite |
| TaskStore.UpdateById | src/storage/useTaskStore.ts:100-106 | length kept and non-matching entries unchanged; a matching entry becomes the argument, except that it keeps its old tags when the argument has none |
| TaskStore.UpdateAbsentNoOp | src/storage/useTaskStore.ts:100-106 | updating with an id no task has leaves the list unchanged |
| TaskStore.UpdateIdempotent | src/storage/useTaskStore.ts:100-106 | applying the same update twice equals applying it once |
| TaskStore.UpdatePreservesUniqueIds | src/storage/useTaskStore.ts:100-106 | unique ids stay unique after an update |
| TaskStore.UpdateReplacesCreatedAt | src/storage/useTaskStore.ts:104 | an updated entry takes the argument's creation time: the store does not protect it |
| TaskStore.AddUniqueIff | src/storage/useTaskStore.ts:80-84 | after an append the ids are unique iff they were unique before and the new id was unused, so the store does not check for duplicates |
| TaskStore.AddThenRetitle | src/storage/useTaskStore.ts:80-106 | appending a task with a fresh id and then updating it with a new title changes that title and nothing else |
| TaskStore.TaskStore.constructor | src/storage/useTaskStore.ts:69-77 | the store starts with no tasks, the initial `all`/`all`/`all`/empty filters and no task selected |
| TaskStore.TaskStore.AddTask | src/storage/useTaskStore.ts:80-84 | the task list becomes the old list plus the task at the end; the other fields are unchanged |
| TaskStore.TaskStore.RemoveTask | src/storage/useTaskStore.ts:86-90 | the task list becomes `RemoveById` of the old list; the other fields are unchanged |
| TaskStore.TaskStore.ToggleCompleted | src/storage/useTaskStore.ts:92-98 | the task list becomes `ToggleById` of the old list; the other fields are unchanged |
| TaskStore.TaskStore.UpdateTask | src/storage/useTaskStore.ts:100-106 | the task list becomes `UpdateById` of the old list; the other fields are unchanged |
| TaskStore.TaskStore.SetFilters | src/storage/useTaskStore.ts:109-113 | the filters become the merge of the old filters with the patch; the other fields are unchanged |
| TaskStore.TaskStore.ResetFilters | src/storage/useTaskStore.ts:115-124 | the filters return to the initial record; the other fields are unchanged |
| TaskStore.TaskStore.SetTaskToEdit | src/storage/useTaskStore.ts:127 | the selection becomes the argument; the other fields are unchanged |
| TaskStore.TaskStore.ClearTaskToEdit | src/storage/useTaskStore.ts:128 | the selection becomes empty; the other fields are unchanged |
| FilterStore.Step | src/storage/useFilterStore.ts:67-94 | every field a call targets holds the call's argument verbatim (the default for a reset), and every other field keeps its value |
| FilterStore.RunPerField | src/storage/useFilterStore.ts:67-80 | after any sequence of calls, each field's value depends only on the calls that target that field |
| FilterStore.RunConcat | src/storage/useFilterStore.ts:67-94 | running two call sequences one after the other equals running their concatenation |
| FilterStore.ResetAfterAnyRun | src/storage/useFilterStore.ts:87-94 | a reset after any sequence of calls gives the initial state |
| FilterStore.ResetIdempotent | src/storage/useFilterStore.ts:87-94 | two resets equal one |
| FilterStore.LaterWriteWins | src/storage/useFilterStore.ts:67-80 | a call that writes at least the fields of an earlier call hides it completely, so setters replace lists whole |
| FilterStore.DisjointWritesCommute | src/storage/useFilterStore.ts:67-80 | calls that write different fields commute |
| FilterStore.FilterStore.constructor | src/storage/useFilterStore.ts:60-64 | the store starts at `all`, no priorities, `all`, empty search and no tags |
| FilterStore.FilterStore.SetStatus | src/storage/useFilterStore.ts:67 | the status becomes the argument and the other four fields are unchanged |
| FilterStore.FilterStore.SetPriority | src/storage/useFilterStore.ts:68 | the priority list becomes the argument, replaced whole, and the other four fields are unchanged |
| FilterStore.FilterStore.SetDateRange | src/storage/useFilterStore.ts:69 | the date range becomes the argument and the other four fields are unchanged |
| FilterStore.FilterStore.SetSearch | src/storage/useFilterStore.ts:75-78 | the search text becomes the argument verbatim, untrimmed and not case-folded, and the other four fields are unchanged |
| FilterStore.FilterStore.SetTags | src/storage/useFilterStore.ts:80 | the tag list becomes the argument, replaced whole, and the other four fields are unchanged |
| FilterStore.FilterStore.ResetFilters | src/storage/useFilterStore.ts:87-94 | every field returns to its initial value |
| FilterStore.FilterStore.Dispatch | src/storage/useFilterStore.ts:67-94 | each method changes the state exactly as `Step` says for the call it stands for |
| Text.Trim | src/ui/components/TaskList.tsx:117 | the result is a contiguous slice of the text, everything cut off before and after it is white space, and neither of its ends is white space |
| Text.TrimIdempotent | src/ui/components/TaskList.tsx:117 | trimming twice equals trimming once |
| Text.TrimIgnoresPadding | src/ui/components/TaskList.tsx:117 | white space added at either end does not change the trim |
| Text.Lower | src/ui/components/TaskList.tsx:117 | length kept, each character folded on its own, and no upper-case ASCII letter left |
| Text.LowerIdempotent | src/ui/components/TaskList.tsx:117 | folding twice equals folding once |
| Text.Contains | src/ui/components/TaskList.tsx:117 | `includes`: defined as the needle occurring at some offset of the text; `ContainsAt` states what that means |
| Text.ContainsAt | src/ui/components/TaskList.tsx:117 | `includes` holds iff the needle occurs as a contiguous block at some position |
| TaskList.InDateRange | src/ui/components/TaskList.tsx:66-83 | `all` admits every due date, `overdue` exactly those before the start of today (its same-day exclusion adds nothing), `today` exactly those from the start of today to before the start of tomorrow; `week` and `month` are defined as strictly after the period's first instant and strictly before its last |
| TaskList.PassesFirstFilter | src/ui/components/TaskList.tsx:94-114 | defined as the conjunction of the status, priority, date-range and tag checks of the first `.filter` |
| TaskList.Included | src/ui/components/TaskList.tsx:93-118 | defined as passing the first filter and the search check |
| TaskList.Visible | src/ui/components/TaskList.tsx:93-118 | `filteredTasks`: no longer than the task list, and a task is in it iff it is in the list and included |
| TaskList.VisibleIsIncluded | src/ui/components/TaskList.tsx:93-118 | the two chained filters are one filter by the conjunction of all five checks |
| TaskList.VisibleExactly | src/ui/components/TaskList.tsx:93-118 | the visible list is an order-preserving subsequence of the tasks; each included task keeps all its occurrences and no other task appears |
| TaskList.CheckOrderIrrelevant | src/ui/components/TaskList.tsx:93-118 | running the search filter before the first filter gives the same list |
| TaskList.EmptySearchMatches | src/ui/components/TaskList.tsx:117 | the empty search text matches every title |
| TaskList.IncludedWithoutSearch | src/ui/components/TaskList.tsx:115-118 | with an empty search text a task is included iff it passes the first filter |
| TaskList.DefaultIncludes | src/ui/components/TaskList.tsx:93-118 | under the initial criteria every task passes every check |
| TaskList.DefaultShowsAll | src/ui/components/TaskList.tsx:93-118 | under the initial criteria the visible list is the whole task list |
| TaskList.StatusCriterion | src/ui/components/TaskList.tsx:96-97 | with the other criteria at their defaults, `completed` keeps exactly the completed tasks, `uncompleted` exactly the others, and `all` keeps every task |
| TaskList.PriorityCriterion | src/ui/components/TaskList.tsx:100 | with the other criteria at their defaults, a task is included iff the priority list is empty or holds its priority |
| TaskList.DateCriterion | src/ui/components/TaskList.tsx:103 | with the other criteria at their defaults, a task is included iff its due date is in the selected range |
| TaskList.TagCriterion | src/ui/components/TaskList.tsx:106-111 | with the other criteria at their defaults, a task is included iff the tag list is empty or shares a tag with the task's tags; absent and empty tag lists fail a non-empty tag filter |
| TaskList.SearchCriterion | src/ui/components/TaskList.tsx:115-118 | with the other criteria at their defaults, a task is included iff it passes the search check |
| TaskList.SearchIsSubstring | src/ui/components/TaskList.tsx:117 | the search check holds iff the folded, trimmed search text occurs in the folded title at some position |
| TaskList.SearchIgnoresPadding | src/ui/components/TaskList.tsx:117 | white space around the search text does not change the outcome |
| TaskList.SearchIgnoresTitleCase | src/ui/components/TaskList.tsx:117 | folding the title's case first does not change the outcome |
| TaskList.TodayOverdueExclusive | src/ui/components/TaskList.tsx:71-78 | no due date is both today and overdue |
| TaskList.WeekExcludesItsFirstInstant | src/ui/components/TaskList.tsx:73-74 | on the first day of a week, a task due at that day's first instant is due today but not this week |
| TaskList.TodayInsideWeekAndMonth | src/ui/components/TaskList.tsx:71-76 | a task due today is also due this week and this month unless it falls on the first or last instant of that week or month |
| TaskList.ScenarioNewTaskStatus | src/ui/components/TaskList.tsx:93-118 | a new task due today is shown by default and hidden when only completed tasks are shown |
| TaskList.ScenarioOverdue | src/ui/components/TaskList.tsx:77-78 | of a task due yesterday and one due today, `overdue` shows only the first |
| TaskList.ScenarioTags | src/ui/components/TaskList.tsx:106-111 | a task tagged `work` and `urgent` is shown for `urgent` and hidden for `home` |
| Seqs.Dedup | src/ui/components/TaskForm.tsx:38-40 | `Array.from(new Set(..))`: the same elements as the input, none of them twice |
| Seqs.DedupFirstOccurrenceOrder | src/ui/filters/TaskFiltersPanel.tsx:31 | the kept elements are in the order of their first occurrence in the input |
| TaskTags.TagsOf | src/ui/components/TaskForm.tsx:39 | a tag is in the flattened list iff some task carries it, with an absent list read as empty |
| TaskTags.TagsOfConcat | src/ui/components/TaskForm.tsx:39 | flattening a concatenation concatenates the flattened parts |
| TaskTags.AllTags | src/ui/components/TaskForm.tsx:38-40 | a tag is listed iff some task carries it, and no tag is listed twice |
| TaskTags.AllTagsExactlyOnce | src/ui/components/TaskForm.tsx:38-40 | every tag of every task occurs exactly once and nothing else occurs |
| TaskTags.AllTagsFirstOccurrenceOrder | src/ui/filters/TaskFiltersPanel.tsx:31 | tags are listed in the order of their first occurrence in the tasks' tag lists |
| TaskTags.UntaggedContributesNothing | src/ui/components/TaskForm.tsx:39 | inserting a task with absent or empty tags anywhere leaves the list unchanged |
| TaskForm.NewTask | src/ui/components/TaskForm.tsx:55-65 | id and completion come from the initial task in edit mode and are fresh and false otherwise; creation time comes from the initial task whenever there is one and is `now` otherwise; tags are the submitted list or empty, never absent; title, due date and priority are copied |
| TaskForm.EditRoundTrip | src/ui/components/TaskForm.tsx:55-65 | submitting a task's own values in edit mode gives back the task iff its tags are present, and otherwise the task with empty tags |
| TaskForm.CreateKeepsInitialCreatedAt | src/ui/components/TaskForm.tsx:62-64 | outside edit mode, an initial task still supplies the creation time but not the id |
| TaskForm.Submit | src/ui/components/TaskForm.tsx:67-74 | the task goes to the edit callback iff the form is in edit mode and has a callback, and to `addTask` otherwise |
| TaskForm.HandleSubmit | src/ui/components/TaskForm.tsx:53-75 | with a callback in edit mode the store is unchanged and the task is handed back; otherwise the task is appended once and nothing else changes |
| TaskForm.EditWithoutCallbackDuplicatesId | src/ui/components/TaskForm.tsx:67-74 | in edit mode without a callback the task goes to `addTask` with the id of a stored task, so the ids stop being unique |
| TaskForm.EditThroughUpdate | src/ui/components/TaskForm.tsx:55-65 | with unique ids, an edit passed to `updateTask` changes only the edited task's title, due date, priority and tags: its id, completion and creation time are kept |
| TaskForm.Disabled | src/ui/components/TaskForm.tsx:46-47 | `disabledDate`: no date is disabled when none is given; a given date is disabled iff the task list's `overdue` range holds it, so a date can be picked iff the list would not call it overdue |
| TaskForm.TodaySelectable | src/ui/components/TaskForm.tsx:46-47 | every instant of today can be picked |
| FiltersPanel.Chips | src/ui/filters/TaskFiltersPanel.tsx:98-137 | defined as the status chip, one chip per selected priority, the date chip and one chip per selected tag, in display order; `ChipsShown` states which chips appear |
| FiltersPanel.CloseChip | src/ui/filters/TaskFiltersPanel.tsx:98-137 | each chip's close button calls the setter of its own field only; the status and date chips reset their field to `all`; the priority and tag chips write the list without that value |
| FiltersPanel.ChipsShown | src/ui/filters/TaskFiltersPanel.tsx:99-137 | a status chip is shown iff the status is not `all`, and only for that status; the same for the date range; each priority and each tag shows as many chips as it is selected |
| FiltersPanel.CloseStatusChip | src/ui/filters/TaskFiltersPanel.tsx:100 | closing the status chip sets the status to `all` and leaves the other fields unchanged |
| FiltersPanel.CloseDateChip | src/ui/filters/TaskFiltersPanel.tsx:117 | closing the date chip sets the date range to `all` and leaves the other fields unchanged |
| FiltersPanel.ClosePriorityChip | src/ui/filters/TaskFiltersPanel.tsx:110 | closing a priority chip removes every occurrence of that priority and keeps the others, with their counts and order; no other field changes |
| FiltersPanel.CloseTagChip | src/ui/filters/TaskFiltersPanel.tsx:133 | closing a tag chip removes every occurrence of that tag and keeps the others, with their counts and order; no other field changes |
| FiltersPanel.WithoutChips | src/ui/filters/TaskFiltersPanel.tsx:98-137 | removing a chip from the row removes it from each of the four chip groups |
| FiltersPanel.OtherKindsKept | src/ui/filters/TaskFiltersPanel.tsx:98-137 | removing a chip from a group of another kind leaves that group unchanged |
| FiltersPanel.PriorityChipsWithout | src/ui/filters/TaskFiltersPanel.tsx:106-114 | removing a priority's chip from the priority chips gives the chips of the priority list without that priority |
| FiltersPanel.TagChipsWithout | src/ui/filters/TaskFiltersPanel.tsx:129-137 | removing a tag's chip from the tag chips gives the chips of the tag list without that tag |
| FiltersPanel.CloseShownStatusChip | src/ui/filters/TaskFiltersPanel.tsx:99-103 | closing the shown status chip removes it and no other chip |
| FiltersPanel.CloseShownDateChip | src/ui/filters/TaskFiltersPanel.tsx:116-126 | closing the shown date chip removes it and no other chip |
| FiltersPanel.ClosePriorityChipRemovesIt | src/ui/filters/TaskFiltersPanel.tsx:106-114 | closing a priority chip removes every chip for that priority and no other chip |
| FiltersPanel.CloseTagChipRemovesIt | src/ui/filters/TaskFiltersPanel.tsx:129-137 | closing a tag chip removes every chip for that tag and no other chip |
| FiltersPanel.CloseChipRemovesIt | src/ui/filters/TaskFiltersPanel.tsx:98-137 | closing any shown chip leaves the same chips in the same order, less every copy of that chip |

## Left out

- Persistence. The `persist` middleware and the JSON storage in the browser belong to the library; the model treats save and restore as the identity.
- Subscriptions and rendering. Store subscriptions, re-rendering, markup, component-library widgets, priority colours and date display formats are not modelled.
- The debounced search box (`TaskSearch.tsx`) is not part of this model: its timer and cancellation are event-loop behaviour.
- The edit modal (`EditTaskModal.tsx`) and the application shell (`App.tsx`) are not part of this model. The modal's only logic, an update followed by closing, is `TaskStore.TaskStore.UpdateTask` together with `TaskForm.EditThroughUpdate`.
- Calendar arithmetic. Start and end of day, week and month, the locale's first day of the week, time zones and date parsing are the caller's. They reach the model as the instants of a `Clock`. Invalid date strings are not modelled.
- Generated ids and the clock. `uuidv4()` and `new Date()` become parameters, so the model does not capture that fresh ids are unique.
- TaskForm.NewTask: it copies the picked date's instant, where the source stores the date's ISO string. The model takes that rendering to be lossless.
- Text.Lower: folds only the ASCII letters. Unicode case mapping, including mappings that change a string's length, is not modelled.
- Text.Trim: a character here is a Unicode scalar value, so trimming strips one code point at a time and a surrogate pair is one character. The lone surrogates a JavaScript string can hold are not modelled.
- TaskForm.HandleSubmit: the form validation (a title of at least three characters; required due date and priority) is the component library's job. It appears only as the precondition `Validated`, and as the types of the due date and priority fields. The `resetFields` call after an append changes only form state and is not modelled.
- Tags. A task whose `tags` key is present but `undefined` is not told apart from a task without the key; both are `None`.
- TaskStore.MergeFilters: `{ ...state.filters, ...filters }` (`useTaskStore.ts:112`) overwrites a field with `undefined` when the patch has the key with the value `undefined`. `FiltersPatch` reads that key as missing, and the old value is kept.
- TaskList.Visible: evaluates the whole list against one `Clock`. `isInDateRange` reads `dayjs()` again for each task (`TaskList.tsx:67-68`), and `disabledDate` does so for each date cell (`TaskForm.tsx:47`). A filtering pass that crosses midnight or a week or month boundary is not modelled.
- Panel selects. The panel's select boxes pass the widget's value straight to the store setters (`TaskFiltersPanel.tsx:36-89`); that wiring is what `FilterStore.FilterStore.Dispatch` models. The widget's own value handling is not modelled.
