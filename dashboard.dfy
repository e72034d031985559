/**
 * The dashboard metrics. Every figure is a count over the full, unfiltered
 * task list (the page hands the dashboard its whole store), and every
 * percentage is guarded against an empty denominator.
 */
module Dashboard {
  import opened Types
  import opened Seqs

  predicate AnyTask(t: Task) { true }
  predicate IsCompleted(t: Task) { t.status == Completed }
  predicate IsOpen(t: Task) { t.status != Completed }
  /** What the dashboard calls pending: pending or in progress. */
  predicate IsPendingLike(t: Task) { t.status == Pending || t.status == InProgress }
  predicate IsStoredOverdue(t: Task) { t.status == Overdue }
  /** Urgent and not yet completed. */
  predicate IsOpenUrgent(t: Task) { t.urgency == Urgent && t.status != Completed }

  /**
   * The dashboard's overdue rule: the stored status says so, or the task is
   * not completed and its due date has strictly passed.
   */
  predicate CountsAsOverdue(t: Task, now: int) {
    (t.status != Completed && now > t.dueDate) || t.status == Overdue
  }

  function OverdueAt(now: int): Task -> bool {
    (t: Task) => CountsAsOverdue(t, now)
  }

  function HasUrgency(u: UrgencyLevel): Task -> bool {
    (t: Task) => t.urgency == u
  }

  function InSector(sectorId: string): Task -> bool {
    (t: Task) => t.sectorId == sectorId
  }

  /**
   * `Math.round(part / whole * 100)`, or 0 for an empty whole, in integer
   * arithmetic: the nearest whole percentage, halves rounded up.
   */
  function RoundedPercent(part: nat, whole: nat): (r: nat)
    ensures whole == 0 ==> r == 0
    ensures whole > 0 ==> 2 * whole * r <= 200 * part + whole < 2 * whole * r + 2 * whole
    ensures part <= whole ==> r <= 100
  {
    if whole > 0 then
      var r := (200 * part + whole) / (2 * whole);
      PercentBounds(part, whole, r);
      r
    else 0
  }

  lemma PercentBounds(part: nat, whole: nat, r: nat)
    requires whole > 0 && r == (200 * part + whole) / (2 * whole)
    ensures 2 * whole * r <= 200 * part + whole < 2 * whole * r + 2 * whole
    ensures part <= whole ==> r <= 100
  {
    var n, d := 200 * part + whole, 2 * whole;
    var m := n % d;
    assert n == d * r + m && 0 <= m < d;
    assert 2 * whole * r == d * r;
    if part <= whole && r > 100 {
      MulMonotone(d, r, 101);
      assert false;
    }
  }

  lemma MulMonotone(d: nat, a: nat, b: nat)
    requires a >= b
    ensures d * a >= d * b
  {
    assert d * a == d * b + d * (a - b);
  }

  lemma FortyPercent()
    ensures RoundedPercent(2, 5) == 40
  {
  }

  datatype Metrics = Metrics(
    totalTasks: nat,
    completedTasks: nat,
    pendingTasks: nat,
    overdueTasks: nat,
    urgentTasks: nat,
    completionRate: nat)

  /** The tasks the dashboard counts as overdue. */
  function OverdueTasks(tasks: seq<Task>, now: int): seq<Task> {
    Filter(tasks, OverdueAt(now))
  }

  /** The four headline figures and the overall completion rate. */
  function ComputeMetrics(tasks: seq<Task>, now: int): (m: Metrics)
    ensures m.totalTasks == |tasks|
    ensures m.completedTasks == |Filter(tasks, IsCompleted)|
    ensures m.pendingTasks == |Filter(tasks, IsPendingLike)|
    ensures m.overdueTasks == |OverdueTasks(tasks, now)|
    ensures m.urgentTasks == |Filter(tasks, IsOpenUrgent)|
    ensures m.completionRate == RoundedPercent(m.completedTasks, m.totalTasks)
    ensures m.completedTasks + m.pendingTasks + |Filter(tasks, IsStoredOverdue)| == m.totalTasks
    ensures m.overdueTasks + m.completedTasks <= m.totalTasks
    ensures m.urgentTasks <= |Filter(tasks, HasUrgency(Urgent))|
    ensures m.completionRate <= 100
    ensures m.totalTasks == 0 ==> m.completionRate == 0
    ensures m.totalTasks > 0 ==>
      2 * m.totalTasks * m.completionRate <= 200 * m.completedTasks + m.totalTasks
                                          < 2 * m.totalTasks * m.completionRate + 2 * m.totalTasks
  {
    var completed := |Filter(tasks, IsCompleted)|;
    StatusPartition(tasks);
    OverdueNeverCompleted(tasks, now);
    OpenUrgentAtMostUrgent(tasks);
    Metrics(
      |tasks|,
      completed,
      |Filter(tasks, IsPendingLike)|,
      |OverdueTasks(tasks, now)|,
      |Filter(tasks, IsOpenUrgent)|,
      RoundedPercent(completed, |tasks|))
  }

  /** The four statuses partition the list. */
  lemma StatusPartition(tasks: seq<Task>)
    ensures |Filter(tasks, IsCompleted)| + |Filter(tasks, IsPendingLike)| + |Filter(tasks, IsStoredOverdue)|
            == |tasks|
  {
    FilterPartition(tasks, IsPendingLike, IsStoredOverdue, IsOpen);
    FilterPartition(tasks, IsCompleted, IsOpen, AnyTask);
    FilterKeepsAll(tasks, AnyTask);
  }

  /** Completed tasks are never counted as overdue. */
  lemma OverdueNeverCompleted(tasks: seq<Task>, now: int)
    ensures |OverdueTasks(tasks, now)| + |Filter(tasks, IsCompleted)| <= |tasks|
  {
    FilterMonotone(tasks, OverdueAt(now), IsOpen);
    FilterPartition(tasks, IsCompleted, IsOpen, AnyTask);
    FilterKeepsAll(tasks, AnyTask);
  }

  lemma OpenUrgentAtMostUrgent(tasks: seq<Task>)
    ensures |Filter(tasks, IsOpenUrgent)| <= |Filter(tasks, HasUrgency(Urgent))|
  {
    FilterMonotone(tasks, IsOpenUrgent, HasUrgency(Urgent));
  }

  /** A task is counted as overdue exactly by the dashboard's rule. */
  lemma OverdueCountedIff(tasks: seq<Task>, now: int, t: Task)
    ensures t in OverdueTasks(tasks, now) <==>
            t in tasks && (t.status == Overdue || (t.status != Completed && now > t.dueDate))
  {
    FilterMembership(tasks, OverdueAt(now), t);
  }

  /** Yesterday's pending task is overdue; yesterday's completed task is not. */
  lemma OverdueScenario(pending: Task, completed: Task, now: int)
    requires pending.status == Pending && completed.status == Completed
    requires pending.dueDate < now && completed.dueDate < now
    ensures ComputeMetrics([pending, completed], now).overdueTasks == 1
  {
    var tasks := [pending, completed];
    assert tasks[1..] == [completed] && tasks[1..][1..] == [];
    assert OverdueAt(now)(pending) && !OverdueAt(now)(completed);
    assert Filter(tasks[1..], OverdueAt(now)) == Filter(tasks[1..][1..], OverdueAt(now)) == [];
    assert OverdueTasks(tasks, now) == [pending];
  }

  // ---------------------------------------------------------------------
  // Per-urgency distribution
  // ---------------------------------------------------------------------

  datatype UrgencyStat = UrgencyStat(level: UrgencyLevel, caption: string, count: nat, percent: nat)

  /** The caption of each urgency level in the distribution. */
  function UrgencyLabel(u: UrgencyLevel): string {
    match u
    case Urgent => "Urgente"
    case Moderate => "Moderada"
    case Low => "Baixa"
  }

  /** One entry of the distribution: its level, label, count and the percentage shown beside it. */
  function StatFor(tasks: seq<Task>, u: UrgencyLevel): UrgencyStat {
    var count := |Filter(tasks, HasUrgency(u))|;
    UrgencyStat(u, UrgencyLabel(u), count, RoundedPercent(count, |tasks|))
  }

  /** One entry per urgency level, over all tasks whatever their status. */
  function UrgencyStats(tasks: seq<Task>): (r: seq<UrgencyStat>)
    ensures |r| == 3 && r[0].level == Urgent && r[1].level == Moderate && r[2].level == Low
    ensures r[0].count + r[1].count + r[2].count == |tasks|
    ensures forall i :: 0 <= i < 3 ==> r[i].percent <= 100
    ensures |tasks| == 0 ==> forall i :: 0 <= i < 3 ==> r[i].percent == 0
    ensures forall i :: 0 <= i < 3 ==>
              && r[i].caption == UrgencyLabel(r[i].level)
              && r[i].count == |Filter(tasks, HasUrgency(r[i].level))|
              && r[i].percent == RoundedPercent(r[i].count, |tasks|)
  {
    UrgencyPartition(tasks);
    [StatFor(tasks, Urgent), StatFor(tasks, Moderate), StatFor(tasks, Low)]
  }

  lemma UrgencyPartition(tasks: seq<Task>)
    ensures |Filter(tasks, HasUrgency(Urgent))| + |Filter(tasks, HasUrgency(Moderate))|
            + |Filter(tasks, HasUrgency(Low))| == |tasks|
  {
    var notUrgent := (t: Task) => t.urgency != Urgent;
    FilterPartition(tasks, HasUrgency(Moderate), HasUrgency(Low), notUrgent);
    FilterPartition(tasks, HasUrgency(Urgent), notUrgent, AnyTask);
    FilterKeepsAll(tasks, AnyTask);
  }

  /** The open-urgent headline never exceeds the urgent entry of the distribution. */
  lemma UrgentTasksWithinDistribution(tasks: seq<Task>, now: int)
    ensures ComputeMetrics(tasks, now).urgentTasks <= UrgencyStats(tasks)[0].count
  {
  }

  // ---------------------------------------------------------------------
  // Per-sector breakdown
  // ---------------------------------------------------------------------

  /** A sector with its task count, completed count and completion rate. */
  datatype SectorStats = SectorStats(sector: Sector, totalTasks: nat, completedTasks: nat, completionRate: nat)

  function StatsFor(tasks: seq<Task>, s: Sector): (r: SectorStats)
    ensures r.sector == s
    ensures r.totalTasks == |Filter(tasks, InSector(s.id))|
    ensures r.completedTasks == |Filter(Filter(tasks, InSector(s.id)), IsCompleted)|
    ensures r.completionRate == RoundedPercent(r.completedTasks, r.totalTasks)
    ensures r.completedTasks <= r.totalTasks
    ensures r.completionRate <= 100
    ensures r.totalTasks == 0 ==> r.completionRate == 0
  {
    var sectorTasks := Filter(tasks, InSector(s.id));
    var completed := |Filter(sectorTasks, IsCompleted)|;
    SectorStats(s, |sectorTasks|, completed, RoundedPercent(completed, |sectorTasks|))
  }

  /** `sectors.map(...)`: one entry per sector, in sector order. */
  function TasksBySector(tasks: seq<Task>, sectors: seq<Sector>): (r: seq<SectorStats>)
    ensures |r| == |sectors|
    ensures forall i :: 0 <= i < |sectors| ==> r[i].sector == sectors[i]
    ensures forall i :: 0 <= i < |sectors| ==> r[i] == StatsFor(tasks, sectors[i])
    ensures forall i :: 0 <= i < |sectors| ==> r[i].completedTasks <= r[i].totalTasks
    ensures forall i :: 0 <= i < |sectors| ==> r[i].completionRate <= 100
    ensures forall i :: 0 <= i < |sectors| ==> r[i].totalTasks == 0 ==> r[i].completionRate == 0
  {
    seq(|sectors|, i requires 0 <= i < |sectors| => StatsFor(tasks, sectors[i]))
  }
}
