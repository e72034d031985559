/**
 * The dashboard page: the in-memory store of tasks and sectors, the five
 * filter criteria, the filtered view and the count of active filters.
 */
module Index {
  import opened Types
  import opened Text
  import opened Seqs

  // ---------------------------------------------------------------------
  // Filter engine
  // ---------------------------------------------------------------------

  /** The value of the sector selector that means "every sector". */
  const AllSectors: string := "all"

  /** A selector over a closed set of values, with the wildcard "all". */
  datatype Selector<T> = All | Only(value: T)

  /**
   * The five filter criteria. The sector selector is a plain string, as in
   * the page state, where "all" is the wildcard.
   */
  datatype Criteria = Criteria(
    searchTerm: string,
    sector: string,
    taskType: Selector<TaskType>,
    urgency: Selector<UrgencyLevel>,
    status: Selector<TaskStatus>)

  /** The criteria the page starts with and that "clear filters" restores. */
  const NoFilters: Criteria := Criteria("", AllSectors, All, All, All)

  /** Case-insensitive search in the title or the description. */
  predicate MatchesSearch(t: Task, term: string) {
    Includes(Lower(t.title), Lower(term)) || Includes(Lower(t.description), Lower(term))
  }

  /**
   * The search is a substring test on the lowercased title or description;
   * an empty term matches every task.
   */
  lemma SearchSpec(t: Task, term: string)
    ensures MatchesSearch(t, term) <==>
              (exists i :: OccursAt(Lower(t.title), Lower(term), i))
              || (exists i :: OccursAt(Lower(t.description), Lower(term), i))
    ensures term == [] ==> MatchesSearch(t, term)
  {
    IncludesSpec(Lower(t.title), Lower(term));
    IncludesSpec(Lower(t.description), Lower(term));
  }

  predicate Selects<T(==)>(sel: Selector<T>, v: T) {
    sel.All? || sel.value == v
  }

  /** A task passes the filter when it passes all five criteria. */
  predicate Matches(t: Task, c: Criteria) {
    && MatchesSearch(t, c.searchTerm)
    && (c.sector == AllSectors || t.sectorId == c.sector)
    && Selects(c.taskType, t.taskType)
    && Selects(c.urgency, t.urgency)
    // the stored status only: a task past its due date is not "overdue" here
    && Selects(c.status, t.status)
  }

  function Matching(c: Criteria): Task -> bool {
    (t: Task) => Matches(t, c)
  }

  function NotMatching(c: Criteria): Task -> bool {
    (t: Task) => !Matches(t, c)
  }

  /**
   * The filtered task list the page shows: every matching task, in order,
   * as many times as it occurs, since the tasks left out are exactly the
   * ones that do not match.
   */
  function FilterTasks(tasks: seq<Task>, c: Criteria): (r: seq<Task>)
    ensures SubsequenceOf(r, tasks)
    ensures forall t :: t in r <==> t in tasks && Matches(t, c)
    ensures |r| + |Filter(tasks, NotMatching(c))| == |tasks|
  {
    FilterIsSubsequence(tasks, Matching(c));
    FilterMembershipAll(tasks, Matching(c));
    FilterComplement(tasks, Matching(c), NotMatching(c));
    Filter(tasks, Matching(c))
  }

  /** With no active criterion every task passes. */
  lemma NoFiltersMatchesAll(t: Task)
    ensures Matches(t, NoFilters)
  {
    IncludesEmpty(Lower(t.title));
  }

  /** Identity law: with no active criterion the list comes back unchanged. */
  lemma FilterIdentity(tasks: seq<Task>)
    ensures FilterTasks(tasks, NoFilters) == tasks
  {
    forall i | 0 <= i < |tasks| ensures Matching(NoFilters)(tasks[i]) {
      NoFiltersMatchesAll(tasks[i]);
    }
    FilterKeepsAll(tasks, Matching(NoFilters));
  }

  /**
   * Selecting one stored status (and nothing else) keeps exactly the
   * tasks whose stored status is that one.
   */
  lemma FilterByStoredStatus(tasks: seq<Task>, s: TaskStatus, t: Task)
    ensures t in FilterTasks(tasks, NoFilters.(status := Only(s))) <==> t in tasks && t.status == s
  {
    IncludesEmpty(Lower(t.title));
  }

  /**
   * Selecting "overdue" does not pick up a pending task whose due date has
   * passed: the filter never derives the overdue condition.
   */
  lemma OverdueFilterIgnoresDueDate(tasks: seq<Task>, t: Task, now: int)
    requires t in tasks && t.status == Pending && now > t.dueDate
    ensures t !in FilterTasks(tasks, NoFilters.(status := Only(Overdue)))
  {
    FilterByStoredStatus(tasks, Overdue, t);
  }

  // ---------------------------------------------------------------------
  // Active-filter count
  // ---------------------------------------------------------------------

  datatype Criterion = SearchCriterion | SectorCriterion | TypeCriterion | UrgencyCriterion | StatusCriterion

  const AllCriteria: seq<Criterion> :=
    [SearchCriterion, SectorCriterion, TypeCriterion, UrgencyCriterion, StatusCriterion]

  /** A criterion is active when it is a non-empty string or not "all". */
  predicate IsActive(c: Criteria, k: Criterion) {
    match k
    case SearchCriterion => c.searchTerm != ""
    case SectorCriterion => c.sector != AllSectors
    case TypeCriterion => c.taskType.Only?
    case UrgencyCriterion => c.urgency.Only?
    case StatusCriterion => c.status.Only?
  }

  function ActiveIn(c: Criteria): Criterion -> bool {
    (k: Criterion) => IsActive(c, k)
  }

  /** The active criteria, in the order the page lists them. */
  function ActiveCriteria(c: Criteria): seq<Criterion> {
    Filter(AllCriteria, ActiveIn(c))
  }

  lemma ActiveCriteriaSpec(c: Criteria, k: Criterion)
    ensures k in ActiveCriteria(c) <==> IsActive(c, k)
  {
    FilterMembership(AllCriteria, ActiveIn(c), k);
  }

  /** Indicator of one criterion. */
  function Flag(b: bool): nat {
    if b then 1 else 0
  }

  /** How many of the criteria from position `k` on are active. */
  function ActiveFrom(c: Criteria, k: nat): nat
    requires k <= |AllCriteria|
    decreases |AllCriteria| - k
  {
    if k == |AllCriteria| then 0 else Flag(IsActive(c, AllCriteria[k])) + ActiveFrom(c, k + 1)
  }

  lemma {:induction false} ActiveSuffixLength(c: Criteria, k: nat)
    requires k <= |AllCriteria|
    ensures |Filter(AllCriteria[k..], ActiveIn(c))| == ActiveFrom(c, k)
    decreases |AllCriteria| - k
  {
    if k < |AllCriteria| {
      FilterStep(AllCriteria, k, ActiveIn(c));
      ActiveSuffixLength(c, k + 1);
    } else {
      assert AllCriteria[k..] == [];
    }
  }

  /** The length of the active list, criterion by criterion. */
  lemma ActiveCriteriaLength(c: Criteria)
    ensures |ActiveCriteria(c)| == Flag(c.searchTerm != "") + Flag(c.sector != AllSectors)
      + Flag(c.taskType.Only?) + Flag(c.urgency.Only?) + Flag(c.status.Only?)
  {
  }

  /** Every flag is off exactly for the cleared criteria. */
  lemma NoFlagsIffNoFilters(c: Criteria)
    ensures (Flag(c.searchTerm != "") + Flag(c.sector != AllSectors) + Flag(c.taskType.Only?)
             + Flag(c.urgency.Only?) + Flag(c.status.Only?) == 0) <==> c == NoFilters
  {
  }

  /** The badge count of active filters, counted one criterion at a time. */
  method ActiveFiltersCount(c: Criteria) returns (count: nat)
    ensures count == |ActiveCriteria(c)|
    ensures count <= |AllCriteria|
    ensures count == 0 <==> c == NoFilters
  {
    count := 0;
    if c.searchTerm != "" { count := count + 1; }
    assert count == Flag(c.searchTerm != "");
    if c.sector != AllSectors { count := count + 1; }
    assert count == Flag(c.searchTerm != "") + Flag(c.sector != AllSectors);
    if c.taskType.Only? { count := count + 1; }
    assert count == Flag(c.searchTerm != "") + Flag(c.sector != AllSectors) + Flag(c.taskType.Only?);
    if c.urgency.Only? { count := count + 1; }
    assert count == Flag(c.searchTerm != "") + Flag(c.sector != AllSectors) + Flag(c.taskType.Only?)
      + Flag(c.urgency.Only?);
    if c.status.Only? { count := count + 1; }
    ActiveCriteriaLength(c);
    NoFlagsIffNoFilters(c);
  }

  /** No active criterion means the filtered list is the whole list. */
  lemma NoActiveCriteriaIsIdentity(tasks: seq<Task>, c: Criteria)
    requires ActiveCriteria(c) == []
    ensures FilterTasks(tasks, c) == tasks
  {
    ActiveCriteriaSpec(c, SearchCriterion);
    ActiveCriteriaSpec(c, SectorCriterion);
    ActiveCriteriaSpec(c, TypeCriterion);
    ActiveCriteriaSpec(c, UrgencyCriterion);
    ActiveCriteriaSpec(c, StatusCriterion);
    assert c == NoFilters;
    FilterIdentity(tasks);
  }

  // ---------------------------------------------------------------------
  // Creating and updating tasks
  // ---------------------------------------------------------------------

  /** The task `handleCreateTask` builds from the submitted form. */
  function NewTask(form: TaskFormData, id: string, now: int): Task {
    Task(id, form.title, form.description, form.sectorId, form.taskType, form.urgency,
         Pending, None, None, form.dueDate, now, now)
  }

  /**
   * A partial task: each field the update carries is `Some`. Delivery status
   * and notes are optional in the task, so an update may also set them to
   * "absent" (`Some(None)`).
   */
  datatype TaskPatch = TaskPatch(
    id: Option<string>,
    title: Option<string>,
    description: Option<string>,
    sectorId: Option<string>,
    taskType: Option<TaskType>,
    urgency: Option<UrgencyLevel>,
    status: Option<TaskStatus>,
    deliveryStatus: Option<Option<DeliveryStatus>>,
    deliveryNotes: Option<Option<string>>,
    dueDate: Option<int>,
    createdAt: Option<int>,
    updatedAt: Option<int>)

  const NoChanges: TaskPatch :=
    TaskPatch(None, None, None, None, None, None, None, None, None, None, None, None)

  /** One field of an object spread: the update's value if it has one. */
  function Pick<T>(update: Option<T>, current: T): T {
    if update.Some? then update.value else current
  }

  /** `{ ...task, ...updates, updatedAt: now }`. */
  function ApplyPatch(t: Task, p: TaskPatch, now: int): Task {
    Task(Pick(p.id, t.id), Pick(p.title, t.title), Pick(p.description, t.description),
         Pick(p.sectorId, t.sectorId), Pick(p.taskType, t.taskType), Pick(p.urgency, t.urgency),
         Pick(p.status, t.status), Pick(p.deliveryStatus, t.deliveryStatus),
         Pick(p.deliveryNotes, t.deliveryNotes), Pick(p.dueDate, t.dueDate),
         Pick(p.createdAt, t.createdAt), now)
  }

  /** An update that carries nothing only refreshes `updatedAt`. */
  lemma ApplyNoChanges(t: Task, now: int)
    ensures ApplyPatch(t, NoChanges, now) == t.(updatedAt := now)
  {
  }

  /** Applying the same update twice at the same instant is applying it once. */
  lemma ApplyPatchIdempotent(t: Task, p: TaskPatch, now: int)
    ensures ApplyPatch(ApplyPatch(t, p, now), p, now) == ApplyPatch(t, p, now)
  {
  }

  /** `prev.map(...)` in `handleTaskUpdate`: merge into every task with the id. */
  function UpdatedTasks(ts: seq<Task>, id: string, p: TaskPatch, now: int): (r: seq<Task>)
    ensures |r| == |ts|
    ensures forall i :: 0 <= i < |ts| && ts[i].id != id ==> r[i] == ts[i]
    ensures forall i :: 0 <= i < |ts| && ts[i].id == id ==> r[i] == ApplyPatch(ts[i], p, now)
  {
    seq(|ts|, i requires 0 <= i < |ts| => if ts[i].id == id then ApplyPatch(ts[i], p, now) else ts[i])
  }

  /** An update naming an id no task has leaves the list as it was. */
  lemma UpdateUnknownId(ts: seq<Task>, id: string, p: TaskPatch, now: int)
    requires forall i :: 0 <= i < |ts| ==> ts[i].id != id
    ensures UpdatedTasks(ts, id, p, now) == ts
  {
  }

  predicate UniqueTaskIds(ts: seq<Task>) {
    forall i, j :: 0 <= i < j < |ts| ==> ts[i].id != ts[j].id
  }

  /** With distinct ids an update changes at most one position. */
  lemma UpdateChangesAtMostOne(ts: seq<Task>, id: string, p: TaskPatch, now: int, i: int, j: int)
    requires UniqueTaskIds(ts)
    requires 0 <= i < |ts| && 0 <= j < |ts|
    requires UpdatedTasks(ts, id, p, now)[i] != ts[i]
    requires UpdatedTasks(ts, id, p, now)[j] != ts[j]
    ensures i == j
  {
  }

  /** An update that keeps ids keeps them distinct. */
  lemma UpdateKeepsIdsUnique(ts: seq<Task>, id: string, p: TaskPatch, now: int)
    requires UniqueTaskIds(ts) && p.id.None?
    ensures UniqueTaskIds(UpdatedTasks(ts, id, p, now))
  {
    var r := UpdatedTasks(ts, id, p, now);
    assert forall i :: 0 <= i < |ts| ==> r[i].id == ts[i].id;
  }

  // ---------------------------------------------------------------------
  // Sectors
  // ---------------------------------------------------------------------

  /** A partial sector. */
  datatype SectorPatch = SectorPatch(id: Option<string>, name: Option<string>, color: Option<string>)

  /** `{ ...sector, ...updates }`. */
  function ApplySectorPatch(s: Sector, p: SectorPatch): Sector {
    Sector(Pick(p.id, s.id), Pick(p.name, s.name), Pick(p.color, s.color))
  }

  /** `prev.map(...)` in `handleUpdateSector`: merge into every sector with the id. */
  function UpdatedSectors(ss: seq<Sector>, id: string, p: SectorPatch): (r: seq<Sector>)
    ensures |r| == |ss|
    ensures forall i :: 0 <= i < |ss| && ss[i].id != id ==> r[i] == ss[i]
    ensures forall i :: 0 <= i < |ss| && ss[i].id == id ==> r[i] == ApplySectorPatch(ss[i], p)
  {
    seq(|ss|, i requires 0 <= i < |ss| => if ss[i].id == id then ApplySectorPatch(ss[i], p) else ss[i])
  }

  predicate UniqueSectorIds(ss: seq<Sector>) {
    forall i, j :: 0 <= i < j < |ss| ==> ss[i].id != ss[j].id
  }

  /** Some task still refers to the sector. */
  predicate HasTasksIn(tasks: seq<Task>, sectorId: string) {
    exists t :: t in tasks && t.sectorId == sectorId
  }

  function OtherThan(id: string): Sector -> bool {
    (s: Sector) => s.id != id
  }

  function WithId(id: string): Sector -> bool {
    (s: Sector) => s.id == id
  }

  /**
   * `prev.filter(...)` in `handleRemoveSector`: every sector with the id
   * goes, and the list shrinks by exactly the number of sectors with it.
   */
  function WithoutSector(ss: seq<Sector>, id: string): (r: seq<Sector>)
    ensures SubsequenceOf(r, ss)
    ensures forall s :: s in r <==> s in ss && s.id != id
    ensures |r| + |Filter(ss, WithId(id))| == |ss|
  {
    FilterIsSubsequence(ss, OtherThan(id));
    FilterMembershipAll(ss, OtherThan(id));
    FilterComplement(ss, OtherThan(id), WithId(id));
    Filter(ss, OtherThan(id))
  }

  /** Removing an id no sector has changes nothing. */
  lemma WithoutAbsentSector(ss: seq<Sector>, id: string)
    requires forall i :: 0 <= i < |ss| ==> ss[i].id != id
    ensures WithoutSector(ss, id) == ss
  {
    FilterKeepsAll(ss, OtherThan(id));
  }

  /** With distinct ids, removing a present id removes exactly one sector. */
  lemma {:induction false} WithoutPresentSector(ss: seq<Sector>, id: string)
    requires UniqueSectorIds(ss)
    requires exists i :: 0 <= i < |ss| && ss[i].id == id
    ensures |WithoutSector(ss, id)| == |ss| - 1
  {
    if ss[0].id == id {
      forall i | 0 <= i < |ss[1..]| ensures OtherThan(id)(ss[1..][i]) {
        assert ss[1..][i] == ss[i + 1];
      }
      FilterKeepsAll(ss[1..], OtherThan(id));
    } else {
      var k :| 0 <= k < |ss| && ss[k].id == id;
      assert ss[1..][k - 1].id == id;
      WithoutPresentSector(ss[1..], id);
    }
  }

  /** What `handleRemoveSector` reports. */
  datatype RemoveOutcome = Removed | Rejected(message: string)

  const SectorInUseMessage: string :=
    "Não é possível remover um setor que possui tarefas ativas. Remova ou transfira as tarefas primeiro."

  // ---------------------------------------------------------------------
  // The page state
  // ---------------------------------------------------------------------

  class IndexPage {
    var tasks: seq<Task>
    var sectors: seq<Sector>
    var isTaskFormOpen: bool
    var criteria: Criteria

    /** The page starts from seed data with no filter set. */
    constructor (seedTasks: seq<Task>, seedSectors: seq<Sector>)
      ensures tasks == seedTasks && sectors == seedSectors
      ensures !isTaskFormOpen && criteria == NoFilters
    {
      tasks := seedTasks;
      sectors := seedSectors;
      isTaskFormOpen := false;
      criteria := NoFilters;
    }

    /** The list the page shows under the current criteria. */
    function FilteredTasks(): (r: seq<Task>)
      reads this
      ensures SubsequenceOf(r, tasks)
      ensures forall t :: t in r <==> t in tasks && Matches(t, criteria)
    {
      FilterTasks(tasks, criteria)
    }

    /** `handleCreateTask`: the new task goes first and the form closes. */
    method CreateTask(form: TaskFormData, id: string, now: int)
      requires forall t :: t in tasks ==> t.id != id
      modifies this
      ensures tasks == [NewTask(form, id, now)] + old(tasks)
      ensures tasks[0].title == form.title && tasks[0].description == form.description
      ensures tasks[0].sectorId == form.sectorId && tasks[0].taskType == form.taskType
      ensures tasks[0].urgency == form.urgency && tasks[0].dueDate == form.dueDate
      ensures tasks[0].status == Pending && tasks[0].deliveryStatus == None
      ensures tasks[0].createdAt == now && tasks[0].updatedAt == now
      ensures old(UniqueTaskIds(tasks)) ==> UniqueTaskIds(tasks)
      ensures sectors == old(sectors) && criteria == old(criteria) && !isTaskFormOpen
    {
      tasks := [NewTask(form, id, now)] + tasks;
      isTaskFormOpen := false;
    }

    /** `handleTaskUpdate`: merge the update into the tasks with the id. */
    method UpdateTask(id: string, p: TaskPatch, now: int)
      modifies this
      ensures tasks == UpdatedTasks(old(tasks), id, p, now)
      ensures |tasks| == |old(tasks)|
      ensures forall i :: 0 <= i < |tasks| && old(tasks)[i].id != id ==> tasks[i] == old(tasks)[i]
      ensures (forall t :: t in old(tasks) ==> t.id != id) ==> tasks == old(tasks)
      ensures old(UniqueTaskIds(tasks)) && p.id.None? ==> UniqueTaskIds(tasks)
      ensures sectors == old(sectors) && criteria == old(criteria)
      ensures isTaskFormOpen == old(isTaskFormOpen)
    {
      if UniqueTaskIds(tasks) && p.id.None? {
        UpdateKeepsIdsUnique(tasks, id, p, now);
      }
      tasks := UpdatedTasks(tasks, id, p, now);
    }

    /** `handleAddSector`: the new sector goes last. */
    method AddSector(draft: SectorDraft, id: string)
      requires forall s :: s in sectors ==> s.id != id
      modifies this
      ensures sectors == old(sectors) + [Sector(id, draft.name, draft.color)]
      ensures old(UniqueSectorIds(sectors)) ==> UniqueSectorIds(sectors)
      ensures tasks == old(tasks) && criteria == old(criteria)
      ensures isTaskFormOpen == old(isTaskFormOpen)
    {
      sectors := sectors + [Sector(id, draft.name, draft.color)];
    }

    /** `handleRemoveSector`: refused while any task refers to the sector. */
    method RemoveSector(id: string) returns (outcome: RemoveOutcome)
      modifies this
      ensures HasTasksIn(tasks, id) ==> outcome == Rejected(SectorInUseMessage) && sectors == old(sectors)
      ensures !HasTasksIn(tasks, id) ==> outcome == Removed && sectors == WithoutSector(old(sectors), id)
      ensures (old(UniqueSectorIds(sectors)) && !HasTasksIn(tasks, id) &&
               exists s :: s in old(sectors) && s.id == id) ==> |sectors| == |old(sectors)| - 1
      ensures tasks == old(tasks) && criteria == old(criteria)
      ensures isTaskFormOpen == old(isTaskFormOpen)
    {
      if HasTasksIn(tasks, id) {
        return Rejected(SectorInUseMessage);
      }
      if UniqueSectorIds(sectors) && exists s :: s in sectors && s.id == id {
        var s :| s in sectors && s.id == id;
        var k :| 0 <= k < |sectors| && sectors[k] == s;
        WithoutPresentSector(sectors, id);
      }
      sectors := WithoutSector(sectors, id);
      outcome := Removed;
    }

    /** `handleUpdateSector`: merge the update into the sectors with the id. */
    method UpdateSector(id: string, p: SectorPatch)
      modifies this
      ensures sectors == UpdatedSectors(old(sectors), id, p)
      ensures forall i :: 0 <= i < |sectors| && old(sectors)[i].id != id ==> sectors[i] == old(sectors)[i]
      ensures tasks == old(tasks) && criteria == old(criteria)
      ensures isTaskFormOpen == old(isTaskFormOpen)
    {
      sectors := UpdatedSectors(sectors, id, p);
    }

    /** `clearFilters`: every criterion back to its wildcard. */
    method ClearFilters()
      modifies this
      ensures criteria == NoFilters && ActiveCriteria(criteria) == []
      ensures FilteredTasks() == tasks
      ensures tasks == old(tasks) && sectors == old(sectors)
      ensures isTaskFormOpen == old(isTaskFormOpen)
    {
      criteria := NoFilters;
      FilterIdentity(tasks);
    }
  }
}
