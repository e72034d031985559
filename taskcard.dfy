/**
 * A task card: the sector badge, the status, urgency and type badges, the
 * card's own overdue flag, and the actions it offers. An action does not
 * change the task itself; it hands an update to the page's `UpdateTask`.
 */
module TaskCard {
  import opened Types
  import opened Seqs
  import opened Index
  import opened Dashboard

  // ---------------------------------------------------------------------
  // Sector lookup
  // ---------------------------------------------------------------------

  /** `sectors.find(s => s.id === sectorId)`: the first sector with the id. */
  function FindSector(sectors: seq<Sector>, sectorId: string): (r: Option<Sector>)
    ensures r.None? <==> forall i :: 0 <= i < |sectors| ==> sectors[i].id != sectorId
    ensures r.Some? ==> exists i :: 0 <= i < |sectors| && sectors[i] == r.value && sectors[i].id == sectorId
                          && forall j :: 0 <= j < i ==> sectors[j].id != sectorId
  {
    if sectors == [] then None
    else if sectors[0].id == sectorId then Some(sectors[0])
    else
      var r := FindSector(sectors[1..], sectorId);
      assert r.Some? ==> exists i :: 0 <= i < |sectors| && sectors[i] == r.value && sectors[i].id == sectorId
                          && forall j :: 0 <= j < i ==> sectors[j].id != sectorId by {
        if r.Some? {
          var i :| 0 <= i < |sectors[1..]| && sectors[1..][i] == r.value && sectors[1..][i].id == sectorId
                   && forall j :: 0 <= j < i ==> sectors[1..][j].id != sectorId;
          assert sectors[i + 1] == r.value;
          assert forall j :: 0 <= j < i + 1 ==> sectors[j].id != sectorId by {
            forall j | 0 <= j < i + 1 ensures sectors[j].id != sectorId {
              if j > 0 { assert sectors[j] == sectors[1..][j - 1]; }
            }
          }
        }
      }
      r
  }

  /** The name on the sector badge; no badge when the sector is unknown. */
  function SectorBadge(sectors: seq<Sector>, t: Task): (r: Option<string>)
    ensures r.None? <==> forall i :: 0 <= i < |sectors| ==> sectors[i].id != t.sectorId
    ensures r.Some? ==> exists i :: 0 <= i < |sectors| && sectors[i].id == t.sectorId && sectors[i].name == r.value
                          && forall j :: 0 <= j < i ==> sectors[j].id != t.sectorId
  {
    var s := FindSector(sectors, t.sectorId);
    if s.Some? then Some(s.value.name) else None
  }

  // ---------------------------------------------------------------------
  // Badges
  // ---------------------------------------------------------------------

  datatype Badge = Badge(variant: string, text: string)

  datatype Icon = CheckCircleSuccess | AlertCircleDestructive | ClockWarning | ClockMuted

  function StatusIcon(s: TaskStatus): Icon {
    match s
    case Completed => CheckCircleSuccess
    case Overdue => AlertCircleDestructive
    case InProgress => ClockWarning
    case Pending => ClockMuted
  }

  function StatusBadge(s: TaskStatus): Badge {
    match s
    case Completed => Badge("success", "Concluída")
    case Overdue => Badge("destructive", "Atrasada")
    case InProgress => Badge("warning", "Em andamento")
    case Pending => Badge("secondary", "Pendente")
  }

  function UrgencyBadge(u: UrgencyLevel): Badge {
    match u
    case Urgent => Badge("urgent", "Urgente")
    case Moderate => Badge("moderate", "Relativamente urgente")
    case Low => Badge("low", "Não urgente")
  }

  function TypeBadge(k: TaskType): Badge {
    match k
    case Daily => Badge("outline", "Diária")
    case Monthly => Badge("outline", "Mensal")
    case Temporary => Badge("outline", "Temporária")
  }

  /** The delivery line: shown only once a delivery decision is recorded. */
  function DeliveryCaption(d: Option<DeliveryStatus>): (r: Option<string>)
    ensures r.Some? <==> d.Some?
    ensures d == Some(Delivered) ==> r == Some("Entregue")
    ensures d == Some(NotDelivered) ==> r == Some("Não entregue")
  {
    match d
    case None => None
    case Some(Delivered) => Some("Entregue")
    case Some(NotDelivered) => Some("Não entregue")
  }

  /** Each status, urgency, type and delivery decision has a label of its own. */
  lemma LabelsDistinct(s1: TaskStatus, s2: TaskStatus, u1: UrgencyLevel, u2: UrgencyLevel, k1: TaskType, k2: TaskType,
                       d1: DeliveryStatus, d2: DeliveryStatus)
    ensures s1 != s2 ==> StatusBadge(s1).text != StatusBadge(s2).text
    ensures u1 != u2 ==> UrgencyBadge(u1).text != UrgencyBadge(u2).text
    ensures k1 != k2 ==> TypeBadge(k1).text != TypeBadge(k2).text
    ensures s1 != s2 ==> StatusIcon(s1) != StatusIcon(s2)
    ensures d1 != d2 ==> DeliveryCaption(Some(d1)) != DeliveryCaption(Some(d2))
  {
  }

  // ---------------------------------------------------------------------
  // The card's overdue flag
  // ---------------------------------------------------------------------

  /** The card's rule: not completed and strictly past the due date. */
  predicate IsOverdue(t: Task, now: int) {
    t.status != Completed && now > t.dueDate
  }

  /** A due date equal to now is not overdue, and a completed task never is. */
  lemma OverdueBoundary(t: Task, now: int)
    ensures t.dueDate == now ==> !IsOverdue(t, now)
    ensures t.status == Completed ==> !IsOverdue(t, now)
    ensures t.status != Completed ==> (IsOverdue(t, now) <==> now > t.dueDate)
  {
  }

  /** A card flagged overdue is counted by the dashboard. */
  lemma FlaggedIsCounted(t: Task, now: int)
    ensures IsOverdue(t, now) ==> CountsAsOverdue(t, now)
  {
  }

  function FlaggedAt(now: int): Task -> bool {
    (t: Task) => IsOverdue(t, now)
  }

  /** So the flagged cards never outnumber the dashboard's overdue figure. */
  lemma FlaggedAtMostOverdueCount(tasks: seq<Task>, now: int)
    ensures |Filter(tasks, FlaggedAt(now))| <= ComputeMetrics(tasks, now).overdueTasks
  {
    FilterMonotone(tasks, FlaggedAt(now), OverdueAt(now));
  }

  /**
   * The converse fails: a task whose stored status is "overdue" but whose due
   * date is still ahead is counted by the dashboard and not flagged on its card.
   */
  lemma CountedButNotFlagged(now: int)
    ensures var t := Task("t1", "t", "d", "s1", Temporary, Urgent, Overdue,
                          None, None, now + 1, now, now);
            CountsAsOverdue(t, now) && !IsOverdue(t, now)
  {
  }

  // ---------------------------------------------------------------------
  // Actions
  // ---------------------------------------------------------------------

  datatype CardAction = RecordDelivery(choice: DeliveryStatus) | MarkComplete

  /** The delivery buttons show for a completed task with no delivery decision. */
  predicate OffersDelivery(t: Task) {
    t.status == Completed && t.deliveryStatus.None?
  }

  /** "Mark as complete" shows for a pending or in-progress task. */
  predicate OffersMarkComplete(t: Task) {
    t.status == Pending || t.status == InProgress
  }

  /**
   * The buttons a card shows, each at most once, the "delivered" button
   * before the "not delivered" one.
   */
  function OfferedActions(t: Task): (r: seq<CardAction>)
    ensures RecordDelivery(Delivered) in r <==> OffersDelivery(t)
    ensures RecordDelivery(NotDelivered) in r <==> OffersDelivery(t)
    ensures MarkComplete in r <==> OffersMarkComplete(t)
    ensures forall i, j :: 0 <= i < j < |r| ==> r[i] != r[j]
    ensures OffersDelivery(t) ==> r[0] == RecordDelivery(Delivered) && r[1] == RecordDelivery(NotDelivered)
  {
    (if OffersDelivery(t) then [RecordDelivery(Delivered), RecordDelivery(NotDelivered)] else [])
    + (if OffersMarkComplete(t) then [MarkComplete] else [])
  }

  /** The update an action hands to `UpdateTask`. */
  function ActionPatch(a: CardAction): TaskPatch {
    match a
    case RecordDelivery(d) => NoChanges.(deliveryStatus := Some(Some(d)), status := Some(Completed))
    case MarkComplete => NoChanges.(status := Some(Completed))
  }

  /**
   * On a completed card exactly one of the delivery line and the delivery
   * buttons shows: the buttons until a decision is recorded, the line after.
   */
  lemma CaptionXorButtons(t: Task)
    requires t.status == Completed
    ensures DeliveryCaption(t.deliveryStatus).Some? <==> !OffersDelivery(t)
  {
  }

  /** A stored-overdue task gets no action at all. */
  lemma StoredOverdueHasNoActions(t: Task)
    requires t.status == Overdue
    ensures OfferedActions(t) == []
  {
  }

  /** Recording a delivery completes the task and touches nothing but status, delivery and `updatedAt`. */
  lemma DeliveryUpdate(t: Task, d: DeliveryStatus, now: int)
    ensures var u := ApplyPatch(t, ActionPatch(RecordDelivery(d)), now);
            && u.status == Completed && u.deliveryStatus == Some(d) && u.updatedAt == now
            && u == t.(status := Completed, deliveryStatus := Some(d), updatedAt := now)
  {
  }

  /** Marking complete sets the status only (and `updatedAt`). */
  lemma MarkCompleteUpdate(t: Task, now: int)
    ensures ApplyPatch(t, ActionPatch(MarkComplete), now) == t.(status := Completed, updatedAt := now)
  {
  }

  /** No offered action changes a delivery decision once it is recorded. */
  lemma DeliveryIsFinal(t: Task, a: CardAction, now: int)
    requires t.deliveryStatus.Some? && a in OfferedActions(t)
    ensures ApplyPatch(t, ActionPatch(a), now).deliveryStatus == t.deliveryStatus
  {
  }

  /** Every offered action leaves the task completed. */
  lemma ActionsComplete(t: Task, a: CardAction, now: int)
    requires a in OfferedActions(t)
    ensures ApplyPatch(t, ActionPatch(a), now).status == Completed
  {
  }

  /**
   * Completing a task, then recording its delivery, through the page's
   * update: status completed, delivery set, title, description and sector kept.
   */
  lemma CompleteThenDeliver(ts: seq<Task>, i: int, d: DeliveryStatus, now1: int, now2: int)
    requires 0 <= i < |ts|
    ensures var id := ts[i].id;
            var after1 := UpdatedTasks(ts, id, ActionPatch(MarkComplete), now1);
            var after2 := UpdatedTasks(after1, id, ActionPatch(RecordDelivery(d)), now2);
            && |after2| == |ts|
            && after2[i].status == Completed && after2[i].deliveryStatus == Some(d)
            && after2[i].title == ts[i].title && after2[i].description == ts[i].description
            && after2[i].sectorId == ts[i].sectorId
  {
  }
}
