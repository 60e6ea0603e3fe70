/**
 * The event store of `src/context/EventContext.tsx`: the list of events with
 * their ordered task lists, and the operations the provider offers on it.
 *
 * The provider also writes the list to local storage after every render, and
 * `getEvent` reads from that stored copy. The model keeps both: `events` is the
 * live list, `saved` the stored snapshot (`None` when storage holds nothing).
 * Progress is recomputed by reading the snapshot, which still holds the list as
 * it was before the task change, and writing onto the changed list; the
 * operations below keep that behaviour, and the `Fresh` variants at the end
 * recompute from the changed task list instead.
 */
module EventStore {
  import opened Wrappers
  import opened Numbers
  import opened Types
  import opened Seqs
  import opened CivilDates

  datatype Store = Store(events: seq<Event>, saved: Option<seq<Event>>)

  /** No two events share an id. */
  predicate UniqueIds(events: seq<Event>) {
    forall i, j :: 0 <= i < j < |events| ==> events[i].id != events[j].id
  }

  predicate HasId(events: seq<Event>, id: string) {
    exists i :: 0 <= i < |events| && events[i].id == id
  }

  /** No two tasks of a list share an id. */
  predicate UniqueTaskIds(tasks: seq<Task>) {
    forall i, j :: 0 <= i < j < |tasks| ==> tasks[i].id != tasks[j].id
  }

  predicate HasTaskId(tasks: seq<Task>, id: string) {
    exists i :: 0 <= i < |tasks| && tasks[i].id == id
  }

  // ---------------------------------------------------------------- progress

  predicate IsDone(t: Task) {
    t.completed
  }

  /** The number of completed tasks. */
  function CompletedCount(tasks: seq<Task>): nat {
    Count(tasks, IsDone)
  }

  /** `Math.round(completed / total * 100)` for a non-empty task list. */
  function ProgressOf(tasks: seq<Task>): (p: int)
    requires |tasks| > 0
    ensures 0 <= p <= 100
    ensures -|tasks| <= 2 * (100 * CompletedCount(tasks) - p * |tasks|) < |tasks|
    ensures CompletedCount(tasks) == |tasks| ==> p == 100
    ensures CompletedCount(tasks) == 0 ==> p == 0
  {
    RoundedPercentEnds(|tasks|);
    RoundedPercent(CompletedCount(tasks), |tasks|)
  }

  /** The progress field agrees with the task list: the rounded percentage, or 0 with no tasks. */
  predicate ProgressConsistent(e: Event) {
    if |e.tasks| == 0 then e.progress == 0 else e.progress == ProgressOf(e.tasks)
  }

  // ------------------------------------------------------------- sample data

  function SampleTask(id: string, title: string, description: string, completed: bool, priority: Priority): Task {
    Task(id, title, Some(description), completed, priority)
  }

  function ConferenceTasks(): seq<Task> {
    [ SampleTask("t1", "Book venue", "Secure the convention center", true, High),
      SampleTask("t2", "Send invitations", "Email all department heads", true, High),
      SampleTask("t3", "Arrange catering", "Order lunch and refreshments", false, Medium) ]
  }

  function LaunchTasks(): seq<Task> {
    [ SampleTask("t4", "Prepare demo", "Create product demonstration", true, High),
      SampleTask("t5", "Media invitations", "Invite press and industry analysts", false, Medium) ]
  }

  function RetreatTasks(): seq<Task> {
    [ SampleTask("t6", "Book accommodations", "Reserve rooms for all team members", true, High),
      SampleTask("t7", "Plan activities", "Schedule team building exercises", true, Medium),
      SampleTask("t8", "Organize transportation", "Arrange buses for the team", true, Medium) ]
  }

  /** The first sample event; its dates are the day numbers of 2023-12-10 and 2023-12-12. */
  function Conference(): Event {
    Event("1", "Company Annual Conference",
      Some("Annual company-wide conference with keynote speakers and workshops"),
      Some("Grand Hotel Convention Center"), None, 19701, 19703, "09:00", "18:00",
      EventStatus.InProgress, Finite(250), 65, ConferenceTasks(), None)
  }

  /** The second sample event, on 2023-11-20. */
  function ProductLaunch(): Event {
    Event("2", "Product Launch", Some("Launch event for our new software product"),
      Some("Tech Hub"), None, 19681, 19681, "14:00", "20:00",
      EventStatus.NotStarted, Finite(100), 30, LaunchTasks(), None)
  }

  /** The third sample event, from 2023-09-15 to 2023-09-17. */
  function Retreat(): Event {
    Event("3", "Team Building Retreat", Some("Outdoor team building activities and workshops"),
      Some("Mountain View Resort"), None, 19615, 19617, "08:00", "22:00",
      EventStatus.Completed, Finite(50), 100, RetreatTasks(), None)
  }

  /** The three sample events the provider starts with when storage holds nothing; they carry no budget. */
  function SeedEvents(): seq<Event> {
    [Conference(), ProductLaunch(), Retreat()]
  }

  /** The sample dates are the day numbers of the calendar dates written in the sample data. */
  lemma SeedDates()
    ensures Conference().startDate == DayNumber(CivilDate(2023, 11, 10))
    ensures Conference().endDate == DayNumber(CivilDate(2023, 11, 12))
    ensures ProductLaunch().startDate == DayNumber(CivilDate(2023, 10, 20))
    ensures Retreat().startDate == DayNumber(CivilDate(2023, 8, 15))
    ensures Retreat().endDate == DayNumber(CivilDate(2023, 8, 17))
  {
    assert 2023 / 400 == 5 && 23 / 4 == 5 && 23 / 100 == 0;
    assert MarchFirst(2023) == 19417;
    assert DaysBeforeMonth(11) == 275 && DaysBeforeMonth(10) == 245 && DaysBeforeMonth(8) == 184;
  }

  /**
   * The sample data does not satisfy the progress rule: the first event shows 65
   * with two of three tasks done (67 by the rule), the second 30 with one of two
   * done (50 by the rule). Only the third agrees.
   */
  lemma SeedProgressDisagrees()
    ensures !ProgressConsistent(SeedEvents()[0]) && ProgressOf(SeedEvents()[0].tasks) == 67
    ensures !ProgressConsistent(SeedEvents()[1]) && ProgressOf(SeedEvents()[1].tasks) == 50
    ensures ProgressConsistent(SeedEvents()[2])
  {
    ConferenceProgress();
    LaunchProgress();
    RetreatProgress();
  }

  lemma ConferenceProgress()
    ensures ProgressOf(ConferenceTasks()) == 67
  {
    CountThree(ConferenceTasks());
    DivUnique(403, 6, 67);
  }

  lemma LaunchProgress()
    ensures ProgressOf(LaunchTasks()) == 50
  {
    CountTwo(LaunchTasks());
    DivUnique(202, 4, 50);
  }

  lemma RetreatProgress()
    ensures ProgressOf(RetreatTasks()) == 100
  {
    CountThree(RetreatTasks());
  }

  lemma CountThree(ts: seq<Task>)
    requires |ts| == 3
    ensures CompletedCount(ts) == (if ts[0].completed then 1 else 0) + (if ts[1].completed then 1 else 0) + (if ts[2].completed then 1 else 0)
  {
    CountTwo(ts[1..]);
  }

  lemma CountTwo(ts: seq<Task>)
    requires |ts| == 2
    ensures CompletedCount(ts) == (if ts[0].completed then 1 else 0) + (if ts[1].completed then 1 else 0)
  {
    assert ts[1..] == [ts[1]];
  }

  /** The sample events have distinct ids. */
  lemma SeedIdsUnique()
    ensures UniqueIds(SeedEvents())
  {
  }

  /** The initial state: the stored list when there is one, the samples otherwise. */
  function Load(saved: Option<seq<Event>>): (s: Store)
    ensures s.saved == saved
    ensures saved.Some? ==> s.events == saved.value
    ensures saved.None? ==> s.events == SeedEvents()
  {
    Store(saved.GetOr(SeedEvents()), saved)
  }

  /** The effect that runs after each render: the live list is written to storage. */
  function Persist(s: Store): (r: Store)
    ensures r.events == s.events && r.saved == Some(s.events)
  {
    s.(saved := Some(s.events))
  }

  // ------------------------------------------------------------------ events

  function NewEvent(d: EventDraft, id: string): Event {
    Event(id, d.title, d.description, d.location, d.placeId, d.startDate, d.endDate,
          d.startTime, d.endTime, d.status, d.attendees, 0, [], d.budget)
  }

  /**
   * `addEvent`: appends the draft as a new event with the given fresh id,
   * progress 0 and no tasks, and returns the id.
   */
  function AddEvent(s: Store, d: EventDraft, freshId: string): (r: (Store, string))
    ensures r.1 == freshId
    ensures r.0.saved == s.saved
    ensures |r.0.events| == |s.events| + 1 && r.0.events[..|s.events|] == s.events
    ensures var e := r.0.events[|s.events|];
      && e.id == freshId && e.progress == 0 && e.tasks == []
      && e.title == d.title && e.description == d.description && e.location == d.location
      && e.placeId == d.placeId && e.startDate == d.startDate && e.endDate == d.endDate
      && e.startTime == d.startTime && e.endTime == d.endTime && e.status == d.status
      && e.attendees == d.attendees && e.budget == d.budget
  {
    (s.(events := s.events + [NewEvent(d, freshId)]), freshId)
  }

  /** A fresh id keeps event ids unique. */
  lemma AddEventKeepsIdsUnique(s: Store, d: EventDraft, freshId: string)
    requires UniqueIds(s.events) && !HasId(s.events, freshId)
    ensures UniqueIds(AddEvent(s, d, freshId).0.events)
  {
    var r := AddEvent(s, d, freshId).0.events;
    forall i, j | 0 <= i < j < |r| ensures r[i].id != r[j].id {
      if j < |s.events| {
        assert r[i] == s.events[i] && r[j] == s.events[j];
      } else {
        assert r[i] == s.events[i];
      }
    }
  }

  /** `updateEvent`: merges the patch into every event with the id; nothing else changes. */
  function UpdateEvent(events: seq<Event>, id: string, p: EventPatch): (r: seq<Event>)
    ensures |r| == |events|
    ensures forall i :: 0 <= i < |events| && events[i].id != id ==> r[i] == events[i]
    ensures forall i :: 0 <= i < |events| && events[i].id == id ==> r[i] == MergeEvent(events[i], p)
    ensures !HasId(events, id) ==> r == events
  {
    var r := seq(|events|, i requires 0 <= i < |events| =>
      if events[i].id == id then MergeEvent(events[i], p) else events[i]);
    assert !HasId(events, id) ==> r == events;
    r
  }

  /** `deleteEvent`: removes every event with the id, with its tasks; the rest keep their order. */
  function DeleteEvent(events: seq<Event>, id: string): (r: seq<Event>)
    ensures !HasId(r, id)
    ensures forall i :: 0 <= i < |events| && events[i].id != id ==> events[i] in r
    ensures forall i :: 0 <= i < |r| ==> r[i] in events
    ensures IsSubsequence(r, events)
    ensures !HasId(events, id) ==> r == events
    ensures forall e :: e in events ==> multiset(r)[e] == if e.id != id then multiset(events)[e] else 0
  {
    FilterMultiset(events, (e: Event) => e.id != id);
    assert !HasId(events, id) ==> Filter(events, (e: Event) => e.id != id) == events by {
      if !HasId(events, id) {
        FilterAll(events, (e: Event) => e.id != id);
      }
    }
    Filter(events, (e: Event) => e.id != id)
  }

  /** The first event of `events` with the id, like `Array.prototype.find`. */
  function Find(events: seq<Event>, id: string): (r: Option<Event>)
    ensures r.None? <==> !HasId(events, id)
    ensures r.Some? ==> exists i :: (0 <= i < |events| && events[i] == r.value && r.value.id == id
                                      && forall j :: 0 <= j < i ==> events[j].id != id)
  {
    if |events| == 0 then None
    else if events[0].id == id then Some(events[0])
    else
      var r := Find(events[1..], id);
      assert HasId(events, id) ==> HasId(events[1..], id) by {
        if HasId(events, id) {
          var i :| 0 <= i < |events| && events[i].id == id;
          assert events[1..][i - 1].id == id;
        }
      }
      if r.Some? then
        assert exists i :: (0 <= i < |events| && events[i] == r.value && r.value.id == id
                            && forall j :: 0 <= j < i ==> events[j].id != id) by {
          var i :| 0 <= i < |events[1..]| && events[1..][i] == r.value && r.value.id == id
            && forall j :: 0 <= j < i ==> events[1..][j].id != id;
          assert events[i + 1] == r.value;
          assert forall j :: 0 <= j < i + 1 ==> events[j].id != id by {
            forall j | 0 <= j < i + 1 ensures events[j].id != id {
              if j > 0 { assert events[j] == events[1..][j - 1]; }
            }
          }
        }
        r
      else r
  }

  /** The list `getEvent` searches: the stored snapshot when there is one, the live list otherwise. */
  function ReadList(s: Store): (l: seq<Event>)
    ensures s.saved.Some? ==> l == s.saved.value
    ensures s.saved.None? ==> l == s.events
  {
    s.saved.GetOr(s.events)
  }

  /** `getEvent`: the first event with the id in the stored snapshot, or in the live list when nothing is stored. */
  function GetEvent(s: Store, id: string): (r: Option<Event>)
    ensures r.None? <==> !HasId(ReadList(s), id)
    ensures r.Some? ==> r.value.id == id && r.value in ReadList(s)
  {
    Find(ReadList(s), id)
  }

  /** Once the live list has been written to storage, `getEvent` reads the live list. */
  lemma GetEventAfterPersist(s: Store, id: string)
    ensures GetEvent(Persist(s), id) == Find(s.events, id)
  {
  }

  // ------------------------------------------------------------------- tasks

  /** What `calculateProgress` does: the progress it writes (if any) and the value it returns. */
  datatype ProgressUpdate = ProgressUpdate(write: Option<int>, value: int)

  /**
   * `calculateProgress`: looks the event up with `getEvent`; when it is found
   * and has tasks, queues `updateEvent(id, {progress})` and returns the
   * percentage, otherwise returns 0 and writes nothing.
   */
  function CalculateProgress(s: Store, eventId: string): (r: ProgressUpdate)
    ensures 0 <= r.value <= 100
    ensures r.write.Some? <==> GetEvent(s, eventId).Some? && |GetEvent(s, eventId).value.tasks| > 0
    ensures r.write.Some? ==> r.write.value == r.value == ProgressOf(GetEvent(s, eventId).value.tasks)
    ensures r.write.None? ==> r.value == 0
  {
    match GetEvent(s, eventId)
    case None => ProgressUpdate(None, 0)
    case Some(e) =>
      if |e.tasks| == 0 then ProgressUpdate(None, 0)
      else ProgressUpdate(Some(ProgressOf(e.tasks)), ProgressOf(e.tasks))
  }

  function ProgressPatch(p: int): EventPatch {
    NoEventChange.(progress := Some(p))
  }

  /** Applies the queued progress write, if any, after the task change. */
  function ApplyProgress(events: seq<Event>, eventId: string, write: Option<int>): seq<Event> {
    if write.Some? then UpdateEvent(events, eventId, ProgressPatch(write.value)) else events
  }

  /** Replaces the task list of every event with the id by `f` of it. */
  function MapTasks(events: seq<Event>, eventId: string, f: seq<Task> -> seq<Task>): (r: seq<Event>)
    ensures |r| == |events|
    ensures forall i :: 0 <= i < |events| && events[i].id != eventId ==> r[i] == events[i]
    ensures forall i :: 0 <= i < |events| && events[i].id == eventId ==> r[i] == events[i].(tasks := f(events[i].tasks))
  {
    seq(|events|, i requires 0 <= i < |events| =>
      if events[i].id == eventId then events[i].(tasks := f(events[i].tasks)) else events[i])
  }

  /**
   * A task operation as the provider runs it: `change` is applied to the task
   * list of the target, then the progress read from the pre-change snapshot is
   * written over the result.
   */
  function RunTaskChange(s: Store, eventId: string, change: seq<Task> -> seq<Task>): (r: Store)
    ensures r.saved == s.saved && |r.events| == |s.events|
    ensures forall i :: 0 <= i < |s.events| && s.events[i].id != eventId ==> r.events[i] == s.events[i]
    ensures forall i :: 0 <= i < |s.events| && s.events[i].id == eventId ==>
      r.events[i] == s.events[i].(tasks := change(s.events[i].tasks),
                                  progress := CalculateProgress(s, eventId).write.GetOr(s.events[i].progress))
  {
    var u := CalculateProgress(s, eventId);
    s.(events := ApplyProgress(MapTasks(s.events, eventId, change), eventId, u.write))
  }

  function NewTask(d: TaskDraft, id: string): Task {
    Task(id, d.title, d.description, false, d.priority)
  }

  /**
   * `addTask`: appends a new, not completed task with the fresh id to the task
   * list of the target event; other events are untouched. The progress written
   * is the one of the task list before the change.
   */
  function AddTask(s: Store, eventId: string, d: TaskDraft, freshId: string): (r: Store)
    ensures r.saved == s.saved && |r.events| == |s.events|
    ensures forall i :: 0 <= i < |s.events| && s.events[i].id != eventId ==> r.events[i] == s.events[i]
    ensures forall i :: 0 <= i < |s.events| && s.events[i].id == eventId ==>
      && r.events[i].tasks == s.events[i].tasks + [Task(freshId, d.title, d.description, false, d.priority)]
      && r.events[i] == s.events[i].(tasks := r.events[i].tasks, progress := r.events[i].progress)
      && r.events[i].progress == CalculateProgress(s, eventId).write.GetOr(s.events[i].progress)
  {
    RunTaskChange(s, eventId, (ts: seq<Task>) => ts + [NewTask(d, freshId)])
  }

  /** `{ ...task, ...patch }` on the tasks with the id. */
  function PatchTasks(tasks: seq<Task>, taskId: string, p: TaskPatch): (r: seq<Task>)
    ensures |r| == |tasks|
    ensures forall k :: 0 <= k < |tasks| && tasks[k].id != taskId ==> r[k] == tasks[k]
    ensures forall k :: 0 <= k < |tasks| && tasks[k].id == taskId ==> r[k] == MergeTask(tasks[k], p)
  {
    seq(|tasks|, k requires 0 <= k < |tasks| => if tasks[k].id == taskId then MergeTask(tasks[k], p) else tasks[k])
  }

  /**
   * `updateTask`: merges the patch into the tasks with the id in the target
   * event; the number and order of tasks stay the same.
   */
  function UpdateTask(s: Store, eventId: string, taskId: string, p: TaskPatch): (r: Store)
    ensures r.saved == s.saved && |r.events| == |s.events|
    ensures forall i :: 0 <= i < |s.events| && s.events[i].id != eventId ==> r.events[i] == s.events[i]
    ensures forall i :: 0 <= i < |s.events| && s.events[i].id == eventId ==>
      && |r.events[i].tasks| == |s.events[i].tasks|
      && (forall k :: 0 <= k < |s.events[i].tasks| ==>
            r.events[i].tasks[k] == if s.events[i].tasks[k].id == taskId then MergeTask(s.events[i].tasks[k], p) else s.events[i].tasks[k])
      && r.events[i] == s.events[i].(tasks := r.events[i].tasks, progress := r.events[i].progress)
      && r.events[i].progress == CalculateProgress(s, eventId).write.GetOr(s.events[i].progress)
  {
    RunTaskChange(s, eventId, (ts: seq<Task>) => PatchTasks(ts, taskId, p))
  }

  function RemoveTasks(tasks: seq<Task>, taskId: string): (r: seq<Task>)
    ensures !HasTaskId(r, taskId)
    ensures forall k :: 0 <= k < |tasks| && tasks[k].id != taskId ==> tasks[k] in r
    ensures forall k :: 0 <= k < |r| ==> r[k] in tasks
    ensures IsSubsequence(r, tasks)
    ensures forall t :: t in tasks ==> multiset(r)[t] == if t.id != taskId then multiset(tasks)[t] else 0
  {
    FilterMultiset(tasks, (t: Task) => t.id != taskId);
    Filter(tasks, (t: Task) => t.id != taskId)
  }

  /** `deleteTask`: removes the tasks with the id from the target event; the others keep their order. */
  function DeleteTask(s: Store, eventId: string, taskId: string): (r: Store)
    ensures r.saved == s.saved && |r.events| == |s.events|
    ensures forall i :: 0 <= i < |s.events| && s.events[i].id != eventId ==> r.events[i] == s.events[i]
    ensures forall i :: 0 <= i < |s.events| && s.events[i].id == eventId ==>
      && r.events[i].tasks == RemoveTasks(s.events[i].tasks, taskId)
      && r.events[i] == s.events[i].(tasks := r.events[i].tasks, progress := r.events[i].progress)
      && r.events[i].progress == CalculateProgress(s, eventId).write.GetOr(s.events[i].progress)
  {
    RunTaskChange(s, eventId, (ts: seq<Task>) => RemoveTasks(ts, taskId))
  }

  function CompletionPatch(completed: bool): TaskPatch {
    NoTaskChange.(completed := Some(completed))
  }

  /** `toggleTaskComplete(e, t, c)` is `updateTask(e, t, {completed: c})`. */
  function ToggleTaskComplete(s: Store, eventId: string, taskId: string, completed: bool): (r: Store)
    ensures r == UpdateTask(s, eventId, taskId, CompletionPatch(completed))
    ensures forall i, k ::
      (0 <= i < |s.events| && s.events[i].id == eventId && 0 <= k < |s.events[i].tasks| && s.events[i].tasks[k].id == taskId)
      ==> r.events[i].tasks[k] == s.events[i].tasks[k].(completed := completed)
  {
    UpdateTask(s, eventId, taskId, CompletionPatch(completed))
  }

  // ------------------------------------------------- stale progress, as written

  /**
   * After the list has been written to storage, a task operation writes the
   * progress of the task list as it was BEFORE the change (and writes nothing
   * when that list was empty), whatever the change did.
   */
  lemma TaskChangeProgressIsStale(s: Store, eventId: string, change: seq<Task> -> seq<Task>, i: int)
    requires s.saved == Some(s.events) && UniqueIds(s.events)
    requires 0 <= i < |s.events| && s.events[i].id == eventId
    ensures var e := RunTaskChange(s, eventId, change).events[i];
      && e.tasks == change(s.events[i].tasks)
      && e.progress == (if |s.events[i].tasks| == 0 then s.events[i].progress else ProgressOf(s.events[i].tasks))
  {
    var f := Find(s.events, eventId);
    var j :| 0 <= j < |s.events| && s.events[j] == f.value && f.value.id == eventId
      && forall k :: 0 <= k < j ==> s.events[k].id != eventId;
    assert j == i;
  }

  /** An event "Launch" on 2025-01-10 (day 20098), persisted, with no tasks. */
  function LaunchStore(): Store {
    var launch := Event("e1", "Launch", None, None, None, 20098, 20098, "09:00", "17:00",
                        EventStatus.NotStarted, Finite(0), 0, [], Some(Budget(0, 0, [])));
    Store([launch], Some([launch]))
  }

  const T1 := TaskDraft("T1", None, Medium)
  const T2 := TaskDraft("T2", None, Medium)

  /** The `Launch` event with the given task list and progress, stored and live. */
  function LaunchWith(tasks: seq<Task>, progress: int): Store {
    var e := LaunchStore().events[0].(tasks := tasks, progress := progress);
    Store([e], Some([e]))
  }

  const OpenT1 := NewTask(T1, "t1")
  const DoneT1 := NewTask(T1, "t1").(completed := true)
  const OpenT2 := NewTask(T2, "t2")

  /**
   * The scenario "add T1, mark it done, add T2", with storage written after
   * each step: progress stays 0 after T1 is done (100 was due) and becomes 100
   * once T2 is added (50 was due).
   */
  lemma LaunchScenarioAsWritten()
    ensures Persist(AddTask(LaunchStore(), "e1", T1, "t1")) == LaunchWith([OpenT1], 0)
    ensures Persist(ToggleTaskComplete(LaunchWith([OpenT1], 0), "e1", "t1", true)) == LaunchWith([DoneT1], 0)
    ensures Persist(AddTask(LaunchWith([DoneT1], 0), "e1", T2, "t2")) == LaunchWith([DoneT1, OpenT2], 100)
    ensures !ProgressConsistent(LaunchWith([DoneT1], 0).events[0])
    ensures !ProgressConsistent(LaunchWith([DoneT1, OpenT2], 100).events[0])
  {
    LaunchStep1();
    LaunchStep2();
    LaunchStep3();
    LaunchInconsistent();
  }

  lemma LaunchInconsistent()
    ensures !ProgressConsistent(LaunchWith([DoneT1], 0).events[0])
    ensures !ProgressConsistent(LaunchWith([DoneT1, OpenT2], 100).events[0])
  {
    CountOne([DoneT1]);
    RoundedPercentEnds(1);
    assert ProgressOf([DoneT1]) == 100;
    CountTwo([DoneT1, OpenT2]);
    assert RoundedPercent(1, 2) == 50;
    assert ProgressOf([DoneT1, OpenT2]) == 50;
  }

  lemma LaunchStep1()
    ensures Persist(AddTask(LaunchStore(), "e1", T1, "t1")) == LaunchWith([OpenT1], 0)
  {
    var s0 := LaunchStore();
    var change := (ts: seq<Task>) => ts + [NewTask(T1, "t1")];
    assert change([]) == [OpenT1];
    TaskChangeProgressIsStale(s0, "e1", change, 0);
    var r := AddTask(s0, "e1", T1, "t1");
    assert r == RunTaskChange(s0, "e1", change);
    assert |r.events| == 1;
    var e := r.events[0];
    assert e.tasks == [OpenT1] && e.progress == 0;
    assert e == s0.events[0].(tasks := e.tasks, progress := e.progress);
    Singleton(r.events);
  }

  lemma LaunchStep2()
    ensures Persist(ToggleTaskComplete(LaunchWith([OpenT1], 0), "e1", "t1", true)) == LaunchWith([DoneT1], 0)
  {
    var s1 := LaunchWith([OpenT1], 0);
    var change := (ts: seq<Task>) => PatchTasks(ts, "t1", CompletionPatch(true));
    assert change([OpenT1]) == [DoneT1];
    TaskChangeProgressIsStale(s1, "e1", change, 0);
    CountOne([OpenT1]);
    assert ProgressOf([OpenT1]) == 0;
    var r := ToggleTaskComplete(s1, "e1", "t1", true);
    assert r == RunTaskChange(s1, "e1", change);
    assert |r.events| == 1;
    var e := r.events[0];
    assert e.tasks == [DoneT1] && e.progress == 0;
    assert e == s1.events[0].(tasks := e.tasks, progress := e.progress);
    Singleton(r.events);
  }

  lemma LaunchStep3()
    ensures Persist(AddTask(LaunchWith([DoneT1], 0), "e1", T2, "t2")) == LaunchWith([DoneT1, OpenT2], 100)
  {
    var s2 := LaunchWith([DoneT1], 0);
    var change := (ts: seq<Task>) => ts + [NewTask(T2, "t2")];
    assert change([DoneT1]) == [DoneT1, OpenT2];
    TaskChangeProgressIsStale(s2, "e1", change, 0);
    CountOne([DoneT1]);
    RoundedPercentEnds(1);
    assert ProgressOf([DoneT1]) == 100;
    var r := AddTask(s2, "e1", T2, "t2");
    assert r == RunTaskChange(s2, "e1", change);
    assert |r.events| == 1;
    var e := r.events[0];
    assert e.tasks == [DoneT1, OpenT2] && e.progress == 100;
    assert e == s2.events[0].(tasks := e.tasks, progress := e.progress);
    Singleton(r.events);
  }

  lemma CountOne(ts: seq<Task>)
    requires |ts| == 1
    ensures CompletedCount(ts) == if ts[0].completed then 1 else 0
  {
    assert ts[1..] == [];
  }

  // ------------------------------------------------ progress kept up to date

  /** The event with its progress recomputed from its own task list. */
  function Refresh(e: Event): (r: Event)
    ensures ProgressConsistent(r)
    ensures r == e.(progress := r.progress)
    ensures ProgressConsistent(e) ==> r == e
  {
    e.(progress := if |e.tasks| == 0 then 0 else ProgressOf(e.tasks))
  }

  /**
   * A task operation that recomputes progress from the changed task list, as
   * the progress rule intends: the target events end up consistent, and
   * consistency of every event is preserved.
   */
  function RunTaskChangeFresh(s: Store, eventId: string, change: seq<Task> -> seq<Task>): (r: Store)
    ensures r.saved == s.saved && |r.events| == |s.events|
    ensures forall i :: 0 <= i < |s.events| && s.events[i].id != eventId ==> r.events[i] == s.events[i]
    ensures forall i :: 0 <= i < |s.events| && s.events[i].id == eventId ==>
      && r.events[i].tasks == change(s.events[i].tasks)
      && r.events[i] == s.events[i].(tasks := r.events[i].tasks, progress := r.events[i].progress)
      && ProgressConsistent(r.events[i])
    ensures (forall i :: 0 <= i < |s.events| ==> ProgressConsistent(s.events[i])) ==>
      forall i :: 0 <= i < |r.events| ==> ProgressConsistent(r.events[i])
  {
    var r := seq(|s.events|, i requires 0 <= i < |s.events| =>
      if s.events[i].id == eventId then Refresh(s.events[i].(tasks := change(s.events[i].tasks))) else s.events[i]);
    s.(events := r)
  }

  /** `addTask` with progress recomputed from the new task list. */
  function AddTaskFresh(s: Store, eventId: string, d: TaskDraft, freshId: string): (r: Store)
    ensures r.saved == s.saved && |r.events| == |s.events|
    ensures forall i :: 0 <= i < |s.events| && s.events[i].id != eventId ==> r.events[i] == s.events[i]
    ensures forall i :: 0 <= i < |s.events| && s.events[i].id == eventId ==>
      && r.events[i].tasks == s.events[i].tasks + [Task(freshId, d.title, d.description, false, d.priority)]
      && ProgressConsistent(r.events[i])
    ensures (forall i :: 0 <= i < |s.events| ==> ProgressConsistent(s.events[i])) ==>
      forall i :: 0 <= i < |r.events| ==> ProgressConsistent(r.events[i])
  {
    RunTaskChangeFresh(s, eventId, (ts: seq<Task>) => ts + [NewTask(d, freshId)])
  }

  /** `updateTask` with progress recomputed from the updated task list. */
  function UpdateTaskFresh(s: Store, eventId: string, taskId: string, p: TaskPatch): (r: Store)
    ensures r.saved == s.saved && |r.events| == |s.events|
    ensures forall i :: 0 <= i < |s.events| && s.events[i].id != eventId ==> r.events[i] == s.events[i]
    ensures forall i :: 0 <= i < |s.events| && s.events[i].id == eventId ==>
      && r.events[i].tasks == PatchTasks(s.events[i].tasks, taskId, p)
      && ProgressConsistent(r.events[i])
    ensures (forall i :: 0 <= i < |s.events| ==> ProgressConsistent(s.events[i])) ==>
      forall i :: 0 <= i < |r.events| ==> ProgressConsistent(r.events[i])
  {
    RunTaskChangeFresh(s, eventId, (ts: seq<Task>) => PatchTasks(ts, taskId, p))
  }

  /** `deleteTask` with progress recomputed; removing the last task resets progress to 0. */
  function DeleteTaskFresh(s: Store, eventId: string, taskId: string): (r: Store)
    ensures r.saved == s.saved && |r.events| == |s.events|
    ensures forall i :: 0 <= i < |s.events| && s.events[i].id != eventId ==> r.events[i] == s.events[i]
    ensures forall i :: 0 <= i < |s.events| && s.events[i].id == eventId ==>
      && r.events[i].tasks == RemoveTasks(s.events[i].tasks, taskId)
      && ProgressConsistent(r.events[i])
    ensures (forall i :: 0 <= i < |s.events| ==> ProgressConsistent(s.events[i])) ==>
      forall i :: 0 <= i < |r.events| ==> ProgressConsistent(r.events[i])
  {
    RunTaskChangeFresh(s, eventId, (ts: seq<Task>) => RemoveTasks(ts, taskId))
  }

  /** `toggleTaskComplete` with progress recomputed. */
  function ToggleTaskCompleteFresh(s: Store, eventId: string, taskId: string, completed: bool): (r: Store)
    ensures r == UpdateTaskFresh(s, eventId, taskId, CompletionPatch(completed))
    ensures forall i :: 0 <= i < |s.events| && s.events[i].id == eventId ==> ProgressConsistent(r.events[i])
  {
    UpdateTaskFresh(s, eventId, taskId, CompletionPatch(completed))
  }

  /** The same scenario with progress kept up to date: 0, then 100 once T1 is done, then 50. */
  lemma LaunchScenarioFresh()
    ensures var s1 := Persist(AddTaskFresh(LaunchStore(), "e1", T1, "t1"));
      var s2 := Persist(ToggleTaskCompleteFresh(s1, "e1", "t1", true));
      var s3 := Persist(AddTaskFresh(s2, "e1", T2, "t2"));
      s1.events[0].progress == 0 && s2.events[0].progress == 100 && s3.events[0].progress == 50
  {
    var s1 := Persist(AddTaskFresh(LaunchStore(), "e1", T1, "t1"));
    FreshStep1();
    var s2 := Persist(ToggleTaskCompleteFresh(s1, "e1", "t1", true));
    FreshStep2(s1);
    FreshStep3(s2);
  }

  /** The first step with progress kept up to date: one open task, 0 percent. */
  lemma FreshStep1()
    ensures var s1 := Persist(AddTaskFresh(LaunchStore(), "e1", T1, "t1"));
      |s1.events| == 1 && s1.events[0].id == "e1" && s1.events[0].tasks == [OpenT1] && s1.events[0].progress == 0
  {
    var s1 := Persist(AddTaskFresh(LaunchStore(), "e1", T1, "t1"));
    assert s1.events[0].tasks == [] + [OpenT1];
    CountOne(s1.events[0].tasks);
  }

  /** Completing the only task of a one-event store brings it to 100 percent. */
  lemma FreshStep2(s1: Store)
    requires |s1.events| == 1 && s1.events[0].id == "e1" && s1.events[0].tasks == [OpenT1]
    ensures var s2 := Persist(ToggleTaskCompleteFresh(s1, "e1", "t1", true));
      |s2.events| == 1 && s2.events[0].id == "e1" && s2.events[0].tasks == [DoneT1] && s2.events[0].progress == 100
  {
    var s2 := Persist(ToggleTaskCompleteFresh(s1, "e1", "t1", true));
    assert s2.events[0].tasks == PatchTasks([OpenT1], "t1", CompletionPatch(true));
    assert s2.events[0].tasks == [DoneT1];
    CountOne(s2.events[0].tasks);
    RoundedPercentEnds(1);
  }

  /** Adding an open task next to a completed one brings it to 50 percent. */
  lemma FreshStep3(s2: Store)
    requires |s2.events| == 1 && s2.events[0].id == "e1" && s2.events[0].tasks == [DoneT1]
    ensures var s3 := Persist(AddTaskFresh(s2, "e1", T2, "t2"));
      |s3.events| == 1 && s3.events[0].tasks == [DoneT1, OpenT2] && s3.events[0].progress == 50
  {
    var s3 := Persist(AddTaskFresh(s2, "e1", T2, "t2"));
    assert s3.events[0].tasks == [DoneT1] + [OpenT2];
    CountTwo(s3.events[0].tasks);
    DivUnique(202, 4, 50);
  }

  // ----------------------------------------------------------- id uniqueness

  /** Deleting an event keeps event ids unique. */
  lemma DeleteEventKeepsIdsUnique(events: seq<Event>, id: string)
    requires UniqueIds(events)
    ensures UniqueIds(DeleteEvent(events, id))
  {
    SubsequenceKeepsUnique(DeleteEvent(events, id), events);
  }

  lemma {:induction false} SubsequenceKeepsUnique(a: seq<Event>, b: seq<Event>)
    requires IsSubsequence(a, b) && UniqueIds(b)
    ensures UniqueIds(a)
    decreases |b|
  {
    if |a| > 0 && |b| > 0 {
      if a[0] == b[0] {
        SubsequenceKeepsUnique(a[1..], b[1..]);
        SubsequenceMembers(a[1..], b[1..]);
        forall j | 0 < j < |a| ensures a[0].id != a[j].id {
          assert a[1..][j - 1] in b[1..];
        }
      } else {
        SubsequenceKeepsUnique(a, b[1..]);
      }
    }
  }

  lemma {:induction false} SubsequenceMembers<T>(a: seq<T>, b: seq<T>)
    requires IsSubsequence(a, b)
    ensures forall i :: 0 <= i < |a| ==> a[i] in b
    decreases |b|
  {
    if |a| > 0 && |b| > 0 {
      if a[0] == b[0] {
        SubsequenceMembers(a[1..], b[1..]);
        forall i | 0 < i < |a| ensures a[i] in b {
          assert a[i] == a[1..][i - 1];
        }
      } else {
        SubsequenceMembers(a, b[1..]);
      }
    }
  }

  /** Updating events with a patch that leaves `id` alone keeps ids unique. */
  lemma UpdateEventKeepsIdsUnique(events: seq<Event>, id: string, p: EventPatch)
    requires UniqueIds(events) && p.id.None?
    ensures UniqueIds(UpdateEvent(events, id, p))
  {
    var r := UpdateEvent(events, id, p);
    assert forall i :: 0 <= i < |r| ==> r[i].id == events[i].id;
  }

  /** Adding a task with a fresh id keeps the task ids of the target event unique. */
  lemma AddTaskKeepsTaskIdsUnique(s: Store, eventId: string, d: TaskDraft, freshId: string, i: int)
    requires 0 <= i < |s.events| && s.events[i].id == eventId
    requires UniqueTaskIds(s.events[i].tasks) && !HasTaskId(s.events[i].tasks, freshId)
    ensures UniqueTaskIds(AddTask(s, eventId, d, freshId).events[i].tasks)
  {
    var ts := AddTask(s, eventId, d, freshId).events[i].tasks;
    assert ts[..|ts| - 1] == s.events[i].tasks;
    forall a, b | 0 <= a < b < |ts| ensures ts[a].id != ts[b].id {
      assert ts[a] == s.events[i].tasks[a];
      if b < |ts| - 1 {
        assert ts[b] == s.events[i].tasks[b];
      }
    }
  }
}
