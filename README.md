# Executive task hub: a verified model of the dashboard's logic

The executive task hub is a single-page React dashboard. A CEO uses it to
follow the tasks of the company's sectors. The page keeps an in-memory
store of tasks and sectors. It shows:

- a filtered task list with five criteria (search, sector, type, urgency,
  status) and a badge counting the active ones;
- headline metrics over the whole store, with a breakdown per sector and
  per urgency;
- a card for each task, with its badges, an overdue flag and the actions
  the CEO may take;
- a dialog that adds a sector, after checking the name;
- a form that creates a task, after checking the required fields.

This project models those rules in Dafny and proves what they guarantee.

Modules, one per source component, plus three shared ones:

- `Types`: the records and closed enumerations. Dates are integer
  milliseconds. `type` is a Dafny keyword, so the task field is `taskType`.
- `Text`: the three JavaScript string operations the rules use: `trim`,
  `toLowerCase` and `includes`.
- `Seqs`: `Array.prototype.filter`, with its subsequence, membership,
  monotonicity and partition laws.
- `Index`, from the page:
  - the filter engine and the active-filter count;
  - the task and sector updates as pure functions;
  - the class `IndexPage`, whose fields are the page state and whose
    methods are the handlers.
- `Dashboard`: every metric as a count over the unfiltered list. Each
  percentage is guarded against an empty denominator.
- `TaskCard`:
  - the sector lookup;
  - the status, urgency, type and delivery labels;
  - the card's overdue flag;
  - the actions the card offers and the update each one sends to the page.
- `SectorManagement`: the class `SectorDialog` with the dialog's four state
  fields and `handleAddSector`.
- `TaskForm`: the class `FormState` with `formData` and `errors`, plus
  validation, submit-and-reset and the type change.

Two overdue rules exist side by side, and the model keeps both:

- `Dashboard.CountsAsOverdue` counts a task whose stored status is
  "overdue", or that is not completed and strictly past its due date.
- `TaskCard.IsOverdue` uses only the derived condition.

`TaskCard.FlaggedIsCounted` proves that, at one instant, every flagged card is counted.
`TaskCard.CountedButNotFlagged` exhibits a task that is counted but not
flagged.

The current time is a parameter (`now`) wherever the source reads the
clock. Fresh ids are parameters too, and the store's methods require them
to be unused.

Two behaviours of the code that are easy to misread:

- The duplicate-sector check trims and lowercases the new name, but only
  lowercases the stored names. A stored name that starts or ends with
  whitespace therefore never matches, whatever is typed
  (`SectorManagement.PaddedStoredNameNeverMatches`).
- Removing a sector filters out every sector with that id. The list shrinks
  by the number of sectors with that id (`Index.WithoutSector`), so by
  exactly one when ids are distinct and the id is present
  (`Index.WithoutPresentSector`).

## Model

| member | source | states |
|---|---|---|
| Text.IsWhitespace | src/components/SectorManagement.tsx:45 | definition: the ECMAScript WhiteSpace and LineTerminator code points, the characters `trim()` removes |
| Text.Trim | src/components/SectorManagement.tsx:45 | `trim()` leaves nothing exactly when the string is whitespace only (ECMAScript white space and line terminators) |
| Text.TrimSplits | src/components/SectorManagement.tsx:57 | the trimmed name is the stretch of the input between a whitespace-only lead and a whitespace-only trail |
| Text.TrimmedEnds | src/components/SectorManagement.tsx:57 | a non-empty trimmed string neither starts nor ends with whitespace |
| Text.TrimIdempotent | src/components/SectorManagement.tsx:57 | trimming a trimmed name changes nothing, so the name handed on is already trimmed |
| Text.LowerIdempotent | src/components/SectorManagement.tsx:51 | lowercasing twice is lowercasing once |
| Text.Lower | src/components/SectorManagement.tsx:51 | keeps the length; every capital becomes its small letter (code point + 32) and every other character is kept; no capital remains |
| Text.LowerChar | src/components/SectorManagement.tsx:51 | a capital becomes its small letter (code point + 32), any other character is kept, and the result is never a capital |
| Text.LowerCharIff | src/components/SectorManagement.tsx:51 | two characters lower to the same one exactly when they are the same letter up to case |
| Text.LowerKeepsWhitespace | src/components/SectorManagement.tsx:51 | lowering neither creates nor removes whitespace |
| Text.LowerIgnoresCase | src/components/SectorManagement.tsx:51 | two strings lower to the same string exactly when they have the same length and agree letter by letter up to case |
| Text.Includes | src/pages/Index.tsx:30-31 | the empty needle is always found, and a needle found is no longer than the haystack |
| Text.IncludesSpec | src/pages/Index.tsx:30-31 | `includes` is true exactly when the needle occurs at some position of the haystack |
| Text.IncludesEmpty | src/pages/Index.tsx:30-31 | the empty search term is found in every title |
| Seqs.Filter | src/pages/Index.tsx:29 | the filtered list is no longer than the input, and every element kept is in the input and passes the test |
| Seqs.FilterIsSubsequence | src/pages/Index.tsx:29 | filtering keeps elements in their original order (an order-preserving subsequence) |
| Seqs.FilterMembership | src/pages/Index.tsx:29 | an element is in the result exactly when it is in the input and passes the test |
| Seqs.FilterMembershipAll | src/pages/Index.tsx:29 | the same membership law for every element at once |
| Seqs.FilterKeepsAll | src/pages/Index.tsx:29 | when every element passes, the result is the input itself |
| Seqs.FilterDropsAll | src/pages/Index.tsx:29 | when no element passes, the result is empty |
| Seqs.FilterMonotone | src/components/Dashboard.tsx:26-30 | a weaker test keeps at least as many elements |
| Seqs.FilterPartition | src/components/Dashboard.tsx:24-25 | two disjoint tests whose union is a third keep as many elements together as the third |
| Seqs.FilterComplement | src/pages/Index.tsx:29 | when each element passes exactly one of two tests, the two results together are as long as the input |
| Index.MatchesSearch | src/pages/Index.tsx:30-31 | definition: the lowercased search term is contained in the lowercased title or description |
| Index.SearchSpec | src/pages/Index.tsx:30-31 | a task matches the search exactly when the lowercased term occurs at some position of its lowercased title or description; the empty term matches every task |
| Index.Matches | src/pages/Index.tsx:30-37 | definition: a task passes exactly when it passes the search, sector, type, urgency and stored-status tests together |
| Index.FilterTasks | src/pages/Index.tsx:28-39 | the filtered tasks are an order-preserving subsequence of the tasks; a task is kept exactly when it matches all five criteria; the kept and the non-matching tasks together number all the tasks, so every copy of a matching task is kept |
| Index.NoFiltersMatchesAll | src/pages/Index.tsx:30-35 | with an empty search and every selector at "all", every task matches |
| Index.FilterIdentity | src/pages/Index.tsx:28-39 | with no active criterion, filtering returns the task list unchanged: same elements, same order |
| Index.FilterByStoredStatus | src/pages/Index.tsx:35 | selecting a status keeps exactly the tasks whose stored status is that one |
| Index.OverdueFilterIgnoresDueDate | src/pages/Index.tsx:35 | selecting "overdue" does not pick up a pending task whose due date has passed |
| Index.IsActive | src/pages/Index.tsx:44-48 | definition: the per-criterion test, a non-empty search term or a selector other than "all" |
| Index.ActiveCriteria | src/pages/Index.tsx:42-50 | definition: the criteria, in the order of Index.tsx:44-48, that are active (its meaning is stated by `Index.ActiveCriteriaSpec` and `Index.ActiveCriteriaLength`) |
| Index.ActiveCriteriaSpec | src/pages/Index.tsx:44-48 | a criterion is listed as active exactly when it is a non-empty search or a selector other than "all" |
| Index.ActiveCriteriaLength | src/pages/Index.tsx:42-50 | the number of active criteria is the sum of the five per-criterion indicators |
| Index.NoFlagsIffNoFilters | src/pages/Index.tsx:42-50 | all five indicators are off exactly for the cleared criteria |
| Index.ActiveFiltersCount | src/pages/Index.tsx:42-50 | the count is the number of active criteria, at most 5, and 0 exactly for the cleared criteria |
| Index.NoActiveCriteriaIsIdentity | src/pages/Index.tsx:28-50 | when no criterion is active, the filtered list is the whole list |
| Index.NewTask | src/pages/Index.tsx:53-65 | definition: the task built from the form, with the given id, pending, no delivery decision, created and updated at `now` (its properties are stated by `Index.IndexPage.CreateTask`) |
| Index.ApplyPatch | src/pages/Index.tsx:75 | definition: the object spread `{ ...task, ...updates, updatedAt }`, field by field (its laws are `Index.ApplyNoChanges` and `Index.ApplyPatchIdempotent`) |
| Index.ApplyNoChanges | src/pages/Index.tsx:75 | an update carrying no field only refreshes `updatedAt` |
| Index.ApplyPatchIdempotent | src/pages/Index.tsx:75 | merging the same update twice at the same instant is merging it once |
| Index.UpdatedTasks | src/pages/Index.tsx:72-78 | same length; every task with the id is merged with the update and re-stamped; every other task is untouched |
| Index.UpdateUnknownId | src/pages/Index.tsx:72-78 | an update naming an id no task has leaves the list unchanged |
| Index.UpdateChangesAtMostOne | src/pages/Index.tsx:72-78 | with distinct ids, an update changes at most one position |
| Index.UpdateKeepsIdsUnique | src/pages/Index.tsx:72-78 | an update that does not touch ids keeps the ids distinct |
| Index.ApplySectorPatch | src/pages/Index.tsx:104 | definition: the object spread `{ ...sector, ...updates }`, field by field (used by `Index.UpdatedSectors`) |
| Index.UpdatedSectors | src/pages/Index.tsx:101-107 | same length; every sector with the id is merged with the update; every other sector is untouched |
| Index.WithoutSector | src/pages/Index.tsx:98 | removal keeps the other sectors in order, drops every sector with the id, and the list shrinks by exactly the number of sectors with the id |
| Index.WithoutAbsentSector | src/pages/Index.tsx:98 | removing an id no sector has changes nothing |
| Index.WithoutPresentSector | src/pages/Index.tsx:98 | with distinct ids, removing a present id shortens the list by exactly one |
| Index.HasTasksIn | src/pages/Index.tsx:91 | definition: some task refers to the sector, the guard of `Index.IndexPage.RemoveSector` |
| Index.IndexPage.constructor | src/pages/Index.tsx:16-25 | the page starts from the seed data, with the form closed and no filter set |
| Index.IndexPage.FilteredTasks | src/pages/Index.tsx:28-39 | the shown list is a subsequence of the store's tasks holding exactly those that match the current criteria |
| Index.IndexPage.CreateTask | src/pages/Index.tsx:52-69 | exactly one new task goes first, copied from the form, pending, with no delivery and created = updated = now; the old tasks follow unchanged; ids stay distinct; the form closes |
| Index.IndexPage.UpdateTask | src/pages/Index.tsx:71-79 | the tasks become the merged list; the length and every task with another id are unchanged; an unknown id changes nothing; ids stay distinct when the update carries no id |
| Index.IndexPage.AddSector | src/pages/Index.tsx:81-87 | exactly one sector with the new id is appended after the existing ones; ids stay distinct |
| Index.IndexPage.RemoveSector | src/pages/Index.tsx:89-99 | refused with the alert text and no change while a task refers to the sector; otherwise every sector with the id goes and the rest keep their order |
| Index.IndexPage.UpdateSector | src/pages/Index.tsx:101-107 | the update is merged only into the sectors with the id; nothing else on the page changes |
| Index.IndexPage.ClearFilters | src/pages/Index.tsx:109-115 | every criterion returns to its wildcard, no criterion is active, and the shown list is the whole task list |
| Dashboard.RoundedPercent | src/components/Dashboard.tsx:32 | 0 for an empty whole; otherwise the nearest whole percentage with halves rounded up; at most 100 when the part is at most the whole |
| Dashboard.CountsAsOverdue | src/components/Dashboard.tsx:26-29 | definition: the dashboard's overdue rule, stored status "overdue" or not completed and strictly past the due date (compared with the card's rule by `TaskCard.FlaggedIsCounted` and `TaskCard.CountedButNotFlagged`) |
| Dashboard.FortyPercent | src/components/Dashboard.tsx:32 | 2 of 5 tasks completed gives 40% |
| Dashboard.OverdueTasks | src/components/Dashboard.tsx:26-29 | definition: the tasks the dashboard's overdue rule counts (membership stated by `Dashboard.OverdueCountedIff`) |
| Dashboard.ComputeMetrics | src/components/Dashboard.tsx:23-32 | completed counts the completed tasks, pending the pending and in-progress ones, overdue those the dashboard's overdue rule counts, urgent the urgent tasks not completed, and the rate is the rounded percentage of completed tasks; completed + pending + stored-overdue = total; overdue + completed ≤ total; open urgent ≤ all urgent; the rate is 0 for no tasks and lies in 0..100 |
| Dashboard.StatusPartition | src/components/Dashboard.tsx:23-25 | the four statuses partition the list |
| Dashboard.OverdueNeverCompleted | src/components/Dashboard.tsx:26-29 | overdue and completed tasks never overlap, so together they number at most the total |
| Dashboard.OpenUrgentAtMostUrgent | src/components/Dashboard.tsx:30 | open urgent tasks are at most all urgent tasks |
| Dashboard.OverdueCountedIff | src/components/Dashboard.tsx:26-29 | a task is counted overdue exactly when its stored status is "overdue", or it is not completed and now is strictly past its due date |
| Dashboard.OverdueScenario | src/components/Dashboard.tsx:26-29 | of a pending and a completed task both due in the past, only the pending one is counted overdue |
| Dashboard.UrgencyLabel | src/components/Dashboard.tsx:52-64 | definition: the labels "Urgente", "Moderada" and "Baixa" |
| Dashboard.StatFor | src/components/Dashboard.tsx:49-68 | definition: one distribution entry with its count and the percentage of Dashboard.tsx:177 |
| Dashboard.UrgencyStats | src/components/Dashboard.tsx:49-68 | three entries, urgent, moderate and low in that order; each entry's caption is its level's label, its count the number of tasks of that level whatever their status, and its percentage the rounded share of all tasks shown at line 177; the counts sum to the total; each percentage lies in 0..100 and is 0 when there are no tasks |
| Dashboard.UrgencyPartition | src/components/Dashboard.tsx:53-65 | the three urgency counts sum to the number of tasks |
| Dashboard.UrgentTasksWithinDistribution | src/components/Dashboard.tsx:30-53 | the open-urgent headline never exceeds the urgent entry of the distribution |
| Dashboard.StatsFor | src/components/Dashboard.tsx:36-45 | a sector's entry counts its tasks, counts its completed tasks among them, and gives their rounded percentage as the rate; completed ≤ total; the rate lies in 0..100 and is 0 for a sector with no tasks |
| Dashboard.TasksBySector | src/components/Dashboard.tsx:35-46 | one entry per sector, in sector order, each the sector's own statistics as `Dashboard.StatsFor` states them, with completed ≤ total and a rate in 0..100 that is 0 for a sector with no tasks |
| TaskCard.FindSector | src/components/TaskCard.tsx:15 | the first sector whose id is the task's sector id, or none when no sector has it |
| TaskCard.SectorBadge | src/components/TaskCard.tsx:15-114 | no badge exactly when no sector has the id; otherwise the name of the first sector with that id |
| TaskCard.StatusIcon | src/components/TaskCard.tsx:17-28 | definition: the icon for each status, the muted clock for pending (distinctness in `TaskCard.LabelsDistinct`) |
| TaskCard.StatusBadge | src/components/TaskCard.tsx:30-43 | definition: the variant and label for each status |
| TaskCard.UrgencyBadge | src/components/TaskCard.tsx:45-56 | definition: the variant and label for each urgency level |
| TaskCard.TypeBadge | src/components/TaskCard.tsx:58-69 | definition: the label for each task type, all with the outline variant |
| TaskCard.DeliveryCaption | src/components/TaskCard.tsx:128-138 | the delivery line shows exactly when a delivery decision is recorded, with the caption for that decision |
| TaskCard.CaptionXorButtons | src/components/TaskCard.tsx:128-142 | on a completed card exactly one of the delivery line and the delivery buttons shows |
| TaskCard.LabelsDistinct | src/components/TaskCard.tsx:17-138 | different statuses, urgencies and types get different labels, different statuses different icons, and the two delivery decisions different captions |
| TaskCard.OverdueBoundary | src/components/TaskCard.tsx:81 | a completed task is never flagged; otherwise it is flagged exactly when now is strictly past the due date, so a due date equal to now is not |
| TaskCard.IsOverdue | src/components/TaskCard.tsx:81 | definition: the card's overdue rule, not completed and strictly past the due date |
| TaskCard.FlaggedIsCounted | src/components/TaskCard.tsx:81 | a card flagged overdue is counted overdue by the dashboard |
| TaskCard.FlaggedAtMostOverdueCount | src/components/TaskCard.tsx:81 | the flagged cards never outnumber the dashboard's overdue figure |
| TaskCard.CountedButNotFlagged | src/components/TaskCard.tsx:81 | a stored-"overdue" task due in the future is counted by the dashboard but not flagged on its card |
| TaskCard.OffersDelivery | src/components/TaskCard.tsx:142 | definition: the delivery buttons' condition, completed with no delivery decision |
| TaskCard.OffersMarkComplete | src/components/TaskCard.tsx:171 | definition: the "mark as complete" condition, pending or in progress |
| TaskCard.OfferedActions | src/components/TaskCard.tsx:142-181 | the delivery buttons appear exactly for a completed task with no delivery decision; "mark as complete" appears exactly for a pending or in-progress task; no button appears twice, and "delivered" comes before "not delivered" |
| TaskCard.StoredOverdueHasNoActions | src/components/TaskCard.tsx:142-171 | a stored-"overdue" task gets no action at all |
| TaskCard.ActionPatch | src/components/TaskCard.tsx:83-175 | definition: the update each button hands to the page (its effect is stated by `TaskCard.DeliveryUpdate` and `TaskCard.MarkCompleteUpdate`) |
| TaskCard.DeliveryUpdate | src/components/TaskCard.tsx:83-88 | recording a delivery sets the decision and completes the task; through the page's merge nothing else changes except `updatedAt` |
| TaskCard.MarkCompleteUpdate | src/components/TaskCard.tsx:175 | marking complete changes only the status (and `updatedAt`) |
| TaskCard.DeliveryIsFinal | src/components/TaskCard.tsx:142 | once a delivery decision is recorded, no offered action changes it |
| TaskCard.ActionsComplete | src/components/TaskCard.tsx:83-175 | every offered action leaves the task completed |
| TaskCard.CompleteThenDeliver | src/components/TaskCard.tsx:83-175 | marking a task complete and then recording its delivery, through the page's update, keeps its title, description and sector |
| SectorManagement.NameInUse | src/components/SectorManagement.tsx:51 | definition: some stored name, lowercased, equals the trimmed and lowercased new name |
| SectorManagement.AcceptedNameIsInUse | src/components/SectorManagement.tsx:51-57 | a name once accepted is refused as a duplicate the next time, in any letter case and padding |
| SectorManagement.PaddedStoredNameIsMissed | src/components/SectorManagement.tsx:51 | a stored name with a leading space is not matched by the same name typed without it |
| SectorManagement.PaddedStoredNameNeverMatches | src/components/SectorManagement.tsx:51 | a stored name that starts or ends with whitespace never equals the lowercased trimmed new name, whatever is typed |
| SectorManagement.SectorDialog.constructor | src/components/SectorManagement.tsx:25-28 | the dialog starts closed, with an empty name, the default blue and no error |
| SectorManagement.SectorDialog.HandleAddSector | src/components/SectorManagement.tsx:44-66 | a blank name is refused with "Nome do setor é obrigatório"; a duplicate with "Já existe um setor com este nome"; a refusal hands nothing on and changes only the error; on success the trimmed name and the chosen color are handed on once and the form resets to empty, blue, no error, closed |
| SectorManagement.SectorDialog.OnNameChange | src/components/SectorManagement.tsx:93-96 | typing replaces the name and clears any error, leaving color and dialog state alone |
| TaskForm.RequiredMessage | src/components/TaskForm.tsx:36-46 | definition: the messages for a missing title, description and sector, and no message for the other fields |
| TaskForm.Missing | src/components/TaskForm.tsx:36-46 | definition: a required field is missing, a blank title or description, or no sector |
| TaskForm.FormIsValid | src/components/TaskForm.tsx:36-49 | definition: title and description not blank and a sector chosen |
| TaskForm.ReportsExactly | src/components/TaskForm.tsx:33-46 | definition: the error record has an entry exactly for each missing field, with that field's message |
| TaskForm.EmptyForm | src/components/TaskForm.tsx:89-96 | definition: the empty form, temporary, moderate, due now |
| TaskForm.ReportsExactlyUnique | src/components/TaskForm.tsx:33-46 | the error record that reports exactly the missing fields is unique |
| TaskForm.NoErrorsIffValid | src/components/TaskForm.tsx:48-49 | an error record reporting exactly the missing fields is empty exactly when the form is valid |
| TaskForm.FormState.constructor | src/components/TaskForm.tsx:21-30 | the form starts empty, temporary, moderate, due now, with no errors |
| TaskForm.FormState.ValidateForm | src/components/TaskForm.tsx:33-50 | the stored errors hold one entry for each missing field (blank title, blank description, no sector) under that field with its message, and none for the others; the result is true exactly when title and description are not blank and a sector is chosen; the data is unchanged |
| TaskForm.FormState.HandleSubmit | src/components/TaskForm.tsx:83-99 | the data goes out, untrimmed, exactly when it is valid, and the form then resets with no errors; otherwise the data stays and the errors report the missing fields |
| TaskForm.FormState.HandleTypeChange | src/components/TaskForm.tsx:74-81 | sets the type and the due date; title, description, sector, urgency and errors are unchanged |

## Left out

- Rendering: the JSX markup, styling, icons, the tabs, the dialogs and the select widgets carry no rules.
- The filter setters and their inputs (`TaskFilters.tsx`): they only assign one criterion each. The model has the criteria as a field of `IndexPage` and models `clearFilters`.
- Opening and cancelling the sector dialog, and the color picker: each is a plain assignment of one field.
- `TaskList.tsx` does not pass the sectors to the cards, so in the running page no sector badge ever shows. The model takes the sectors as an explicit argument of `TaskCard.SectorBadge`.
- The dashboard receives the whole store (`src/pages/Index.tsx:176`). In the model its functions take a task list and no criteria, so the metrics cannot depend on the filters. This holds by construction, so no lemma states it.
- `calculateDefaultDueDate` (`src/components/TaskForm.tsx:52-72`) depends on the local-time behaviour of JavaScript `Date`. `TaskForm.FormState.HandleTypeChange` takes the new due date as a parameter.
- Index.IndexPage.UpdateTask: keeps task ids distinct only for an update without an id. `{ ...task, ...updates }` (`src/pages/Index.tsx:75`) would copy an id from the update. The only updates the source sends, from the card (`src/components/TaskCard.tsx:84-87` and `175`), carry no id.
- The clock: every `new Date()` and `Date.now()` is a `now` parameter. One operation reads one instant, so `Index.NewTask` has `createdAt == updatedAt`, while the source reads the clock three times (`src/pages/Index.tsx:54`, `63` and `64`) and two of those readings may fall in different milliseconds. Likewise `TaskCard.FlaggedIsCounted` and `TaskCard.FlaggedAtMostOverdueCount` compare the card's and the dashboard's overdue rules at one shared instant, while the dashboard (`src/components/Dashboard.tsx:27`) and each card (`src/components/TaskCard.tsx:81`) read the clock separately; a task falling due between two readings can be flagged on its card and not counted.
- Id generation (`task-${Date.now()}`, `sector-${Date.now()}`): the id is a parameter, and `CreateTask` and `AddSector` require it to be unused. The source does not guarantee this.
- Dashboard.RoundedPercent: it idealises `Math.round((part / whole) * 100)` as exact half-up rounding in integers. It does not model the floating-point error of the division.
- Text.Lower: it maps only ASCII and Latin-1 capitals, one character each. The full Unicode case mapping is not modelled, including the mappings that change the length of a string.
- Date formatting (`Intl.DateTimeFormat`, `format` from date-fns) is left out: it is locale presentation only.
- `alert()` in `handleRemoveSector` becomes the result `Rejected(message)`.
- React's state batching, `useMemo` and re-rendering are left out. Each handler is modelled as one atomic update of the fields it sets.
- `deliveryNotes` is part of `Task`, but no code writes it, so no operation sets it.
- The form's sector options come from the static seed data (`src/components/TaskForm.tsx:14`). This is presentation, and the model gives the form a plain sector id.
- `src/lib/mockData.ts` is not part of this model. The page's constructor takes the seed tasks and sectors as parameters; `TaskCard.CountedButNotFlagged` uses a task of its own, not a seed task.
- The `default` branches of the label switches are left out: the enumerations are closed, so they cannot be reached.
