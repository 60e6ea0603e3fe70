/**
 * The records of the event planner: tasks, budget items, events and their
 * partial updates, with the string labels the user interface shows and selects.
 * Dates are day numbers, money is an integer number of cents.
 */
module Types {
  import opened Wrappers
  import opened Numbers

  datatype Priority = Low | Medium | High

  datatype BudgetStatus = Planned | InProgress | Completed

  datatype EventStatus = NotStarted | InProgress | Completed | Cancelled

  datatype UserRole = Admin | Organizer | Attendee

  datatype Task = Task(
    id: string,
    title: string,
    description: Option<string>,
    completed: bool,
    priority: Priority)

  /** What `addTask` is given: a task without `id` and `completed`. */
  datatype TaskDraft = TaskDraft(title: string, description: Option<string>, priority: Priority)

  /** `Partial<Task>`: `None` leaves a field as it is; `Some(None)` sets an optional field to undefined. */
  datatype TaskPatch = TaskPatch(
    id: Option<string>,
    title: Option<string>,
    description: Option<Option<string>>,
    completed: Option<bool>,
    priority: Option<Priority>)

  datatype BudgetItem = BudgetItem(
    id: string,
    category: string,
    description: string,
    estimatedAmount: int,
    actualAmount: int,
    status: BudgetStatus)

  /** What a budget form submits: a budget item without `id`. */
  datatype BudgetDraft = BudgetDraft(
    category: string,
    description: string,
    estimatedAmount: int,
    actualAmount: int,
    status: BudgetStatus)

  datatype Budget = Budget(totalEstimated: int, totalActual: int, items: seq<BudgetItem>)

  /** An event; `budget` is absent on the built-in sample events. */
  datatype Event = Event(
    id: string,
    title: string,
    description: Option<string>,
    location: Option<string>,
    placeId: Option<string>,
    startDate: int,
    endDate: int,
    startTime: string,
    endTime: string,
    status: EventStatus,
    attendees: Num,
    progress: int,
    tasks: seq<Task>,
    budget: Option<Budget>)

  /** What `addEvent` is given: an event without `id`, `progress` and `tasks`. */
  datatype EventDraft = EventDraft(
    title: string,
    description: Option<string>,
    location: Option<string>,
    placeId: Option<string>,
    startDate: int,
    endDate: int,
    startTime: string,
    endTime: string,
    status: EventStatus,
    attendees: Num,
    budget: Option<Budget>)

  /** `Partial<Event>`: `None` leaves a field as it is. */
  datatype EventPatch = EventPatch(
    id: Option<string>,
    title: Option<string>,
    description: Option<Option<string>>,
    location: Option<Option<string>>,
    placeId: Option<Option<string>>,
    startDate: Option<int>,
    endDate: Option<int>,
    startTime: Option<string>,
    endTime: Option<string>,
    status: Option<EventStatus>,
    attendees: Option<Num>,
    progress: Option<int>,
    tasks: Option<seq<Task>>,
    budget: Option<Option<Budget>>)

  /** The patch that changes nothing. */
  const NoEventChange := EventPatch(None, None, None, None, None, None, None, None, None, None, None, None, None, None)

  const NoTaskChange := TaskPatch(None, None, None, None, None)

  /** `{ ...task, ...patch }`. */
  function MergeTask(t: Task, p: TaskPatch): (r: Task)
    ensures r.id == p.id.GetOr(t.id)
    ensures r.title == p.title.GetOr(t.title)
    ensures r.description == p.description.GetOr(t.description)
    ensures r.completed == p.completed.GetOr(t.completed)
    ensures r.priority == p.priority.GetOr(t.priority)
  {
    Task(p.id.GetOr(t.id), p.title.GetOr(t.title), p.description.GetOr(t.description),
         p.completed.GetOr(t.completed), p.priority.GetOr(t.priority))
  }

  /** Merging the empty patch is the identity, and merging a patch twice is merging it once. */
  lemma MergeTaskLaws(t: Task, p: TaskPatch)
    ensures MergeTask(t, NoTaskChange) == t
    ensures MergeTask(MergeTask(t, p), p) == MergeTask(t, p)
  {
  }

  /** `{ ...event, ...patch }`. */
  function MergeEvent(e: Event, p: EventPatch): Event {
    Event(
      p.id.GetOr(e.id), p.title.GetOr(e.title), p.description.GetOr(e.description),
      p.location.GetOr(e.location), p.placeId.GetOr(e.placeId),
      p.startDate.GetOr(e.startDate), p.endDate.GetOr(e.endDate),
      p.startTime.GetOr(e.startTime), p.endTime.GetOr(e.endTime),
      p.status.GetOr(e.status), p.attendees.GetOr(e.attendees),
      p.progress.GetOr(e.progress), p.tasks.GetOr(e.tasks), p.budget.GetOr(e.budget))
  }

  /** Merging the empty patch is the identity, and merging a patch twice is merging it once. */
  lemma MergeEventLaws(e: Event, p: EventPatch)
    ensures MergeEvent(e, NoEventChange) == e
    ensures MergeEvent(MergeEvent(e, p), p) == MergeEvent(e, p)
  {
  }

  /** A task draft as the partial update the task forms also submit. */
  function DraftAsTaskPatch(d: TaskDraft): (p: TaskPatch)
    ensures p.id.None? && p.completed.None?
    ensures p.title == Some(d.title) && p.description == Some(d.description) && p.priority == Some(d.priority)
  {
    TaskPatch(None, Some(d.title), Some(d.description), None, Some(d.priority))
  }

  /**
   * An event draft as the partial update the edit page submits. A key the
   * draft leaves out (`description`, `location`, `placeId` or `budget` being
   * absent) is absent from the patch too, so the merge keeps the old value.
   */
  function DraftAsEventPatch(d: EventDraft): (p: EventPatch)
    ensures p.id.None? && p.progress.None? && p.tasks.None?
    ensures p.title == Some(d.title) && p.status == Some(d.status) && p.attendees == Some(d.attendees)
    ensures p.startDate == Some(d.startDate) && p.endDate == Some(d.endDate)
    ensures p.startTime == Some(d.startTime) && p.endTime == Some(d.endTime)
    ensures d.description.Some? <==> p.description.Some?
    ensures d.description.Some? ==> p.description == Some(d.description)
    ensures d.location.Some? <==> p.location.Some?
    ensures d.location.Some? ==> p.location == Some(d.location)
    ensures d.placeId.Some? <==> p.placeId.Some?
    ensures d.placeId.Some? ==> p.placeId == Some(d.placeId)
    ensures d.budget.Some? <==> p.budget.Some?
    ensures d.budget.Some? ==> p.budget == Some(d.budget)
  {
    EventPatch(
      None, Some(d.title), Present(d.description), Present(d.location), Present(d.placeId),
      Some(d.startDate), Some(d.endDate), Some(d.startTime), Some(d.endTime),
      Some(d.status), Some(d.attendees), None, None, Present(d.budget))
  }

  /** A key that is present in an object literal only when it has a value. */
  function Present<T>(o: Option<T>): Option<Option<T>> {
    if o.Some? then Some(o) else None
  }

  function PriorityLabel(p: Priority): string {
    match p
    case Low => "Low"
    case Medium => "Medium"
    case High => "High"
  }

  /** The priority a select value names, if any. */
  function ParsePriority(s: string): (r: Option<Priority>)
    ensures r.Some? ==> PriorityLabel(r.value) == s
    ensures forall p :: PriorityLabel(p) == s ==> r == Some(p)
  {
    if s == "Low" then Some(Low)
    else if s == "Medium" then Some(Medium)
    else if s == "High" then Some(High)
    else None
  }

  function BudgetStatusLabel(s: BudgetStatus): string {
    match s
    case Planned => "Planned"
    case InProgress => "In Progress"
    case Completed => "Completed"
  }

  /** The budget status a select value names, if any. */
  function ParseBudgetStatus(s: string): (r: Option<BudgetStatus>)
    ensures r.Some? ==> BudgetStatusLabel(r.value) == s
    ensures forall b :: BudgetStatusLabel(b) == s ==> r == Some(b)
  {
    if s == "Planned" then Some(BudgetStatus.Planned)
    else if s == "In Progress" then Some(BudgetStatus.InProgress)
    else if s == "Completed" then Some(BudgetStatus.Completed)
    else None
  }

  function EventStatusLabel(s: EventStatus): string {
    match s
    case NotStarted => "Not Started"
    case InProgress => "In Progress"
    case Completed => "Completed"
    case Cancelled => "Cancelled"
  }

  /** The event status a select value names, if any. */
  function ParseEventStatus(s: string): (r: Option<EventStatus>)
    ensures r.Some? ==> EventStatusLabel(r.value) == s
    ensures forall e :: EventStatusLabel(e) == s ==> r == Some(e)
  {
    if s == "Not Started" then Some(EventStatus.NotStarted)
    else if s == "In Progress" then Some(EventStatus.InProgress)
    else if s == "Completed" then Some(EventStatus.Completed)
    else if s == "Cancelled" then Some(EventStatus.Cancelled)
    else None
  }

  function UserRoleLabel(r: UserRole): string {
    match r
    case Admin => "admin"
    case Organizer => "organizer"
    case Attendee => "attendee"
  }

  /** The role a string names, if any: exactly "admin", "organizer" and "attendee" are roles. */
  function ParseUserRole(s: string): (r: Option<UserRole>)
    ensures r.Some? ==> UserRoleLabel(r.value) == s
    ensures forall u :: UserRoleLabel(u) == s ==> r == Some(u)
  {
    if s == "admin" then Some(Admin)
    else if s == "organizer" then Some(Organizer)
    else if s == "attendee" then Some(Attendee)
    else None
  }
}
