/**
 * The entities of the task dashboard: sectors (departments), tasks and the
 * data a task form submits. Dates are integer milliseconds since the epoch.
 */
module Types {

  datatype Option<+T> = None | Some(value: T)

  datatype TaskType = Daily | Monthly | Temporary
  datatype UrgencyLevel = Urgent | Moderate | Low
  datatype TaskStatus = Pending | InProgress | Completed | Overdue
  datatype DeliveryStatus = Delivered | NotDelivered

  /** A department that tasks are assigned to; `color` is only shown. */
  datatype Sector = Sector(id: string, name: string, color: string)

  /** A sector before the store has given it an id. */
  datatype SectorDraft = SectorDraft(name: string, color: string)

  datatype Task = Task(
    id: string,
    title: string,
    description: string,
    sectorId: string,
    taskType: TaskType,
    urgency: UrgencyLevel,
    status: TaskStatus,
    deliveryStatus: Option<DeliveryStatus>,
    deliveryNotes: Option<string>,
    dueDate: int,
    createdAt: int,
    updatedAt: int)

  /** What the task form submits. */
  datatype TaskFormData = TaskFormData(
    title: string,
    description: string,
    sectorId: string,
    taskType: TaskType,
    urgency: UrgencyLevel,
    dueDate: int)
}
