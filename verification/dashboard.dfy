/**
 * The dashboard of `src/pages/Dashboard.tsx`: the "upcoming events" selection
 * and the statistics cards.
 */
module Dashboard {
  import opened Numbers
  import opened Types
  import opened Seqs
  import opened EventStore

  /** An event that is neither completed nor cancelled. */
  predicate IsUpcoming(e: Event) {
    e.status != EventStatus.Completed && e.status != EventStatus.Cancelled
  }

  function StartDay(e: Event): int {
    e.startDate
  }

  function Min(a: int, b: int): int {
    if a <= b then a else b
  }

  /**
   * `upcomingEvents`: the events that are neither completed nor cancelled,
   * sorted by ascending start day (`[...events]` sorts a copy, the list itself
   * keeps its order), at most three of them, and no left-out upcoming event
   * starts before a chosen one.
   */
  function UpcomingEvents(events: seq<Event>): (r: seq<Event>)
    ensures |r| == Min(3, Count(events, IsUpcoming))
    ensures forall i :: 0 <= i < |r| ==> IsUpcoming(r[i]) && r[i] in events
    ensures SortedBy(r, StartDay)
    ensures multiset(r) <= multiset(Filter(events, IsUpcoming))
    ensures forall x, i :: x in multiset(Filter(events, IsUpcoming)) - multiset(r) && 0 <= i < |r| ==>
      r[i].startDate <= x.startDate
  {
    var r := SmallestBy(events, IsUpcoming, StartDay, 3);
    SubMultisetOfFilter(r, events, IsUpcoming);
    SmallestByIsSmallest(events, IsUpcoming, StartDay, 3);
    r
  }

  // ------------------------------------------------------------- statistics

  function TaskCount(e: Event): int {
    |e.tasks|
  }

  function CompletedTaskCount(e: Event): int {
    CompletedCount(e.tasks)
  }

  /** `totalTasks`: the sum over events of their task counts; 0 exactly when no event has a task. */
  function TotalTasks(events: seq<Event>): (n: int)
    ensures 0 <= n
    ensures n == 0 <==> forall i :: 0 <= i < |events| ==> |events[i].tasks| == 0
  {
    SumNonNegative(events, TaskCount);
    Sum(events, TaskCount)
  }

  /** `completedTasks`: the sum over events of their completed task counts; 0 exactly when no task is done. */
  function CompletedTasks(events: seq<Event>): (n: int)
    ensures 0 <= n
    ensures n == 0 <==> forall i :: 0 <= i < |events| ==> CompletedCount(events[i].tasks) == 0
  {
    SumNonNegative(events, CompletedTaskCount);
    Sum(events, CompletedTaskCount)
  }

  /** The completed task count never exceeds the total task count. */
  lemma CompletedTasksBounded(events: seq<Event>)
    ensures 0 <= CompletedTasks(events) <= TotalTasks(events)
  {
    SumMonotone(events, (e: Event) => 0, CompletedTaskCount);
    SumZero(events);
    SumMonotone(events, CompletedTaskCount, TaskCount);
  }

  lemma {:induction false} SumZero(events: seq<Event>)
    ensures Sum(events, (e: Event) => 0) == 0
  {
    if |events| > 0 {
      SumZero(events[1..]);
    }
  }

  /** The statistics of a concatenation of lists add up. */
  lemma TotalsAdd(a: seq<Event>, b: seq<Event>)
    ensures TotalTasks(a + b) == TotalTasks(a) + TotalTasks(b)
    ensures CompletedTasks(a + b) == CompletedTasks(a) + CompletedTasks(b)
  {
    SumConcat(a, b, TaskCount);
    SumConcat(a, b, CompletedTaskCount);
  }

  function IsCompleted(e: Event): bool { e.status == EventStatus.Completed }

  function IsInProgress(e: Event): bool { e.status == EventStatus.InProgress }

  /** `completedEvents`: the number of completed events; 0 exactly when none is completed. */
  function CompletedEvents(events: seq<Event>): (n: nat)
    ensures n <= |events|
    ensures n == 0 <==> forall i :: 0 <= i < |events| ==> events[i].status != EventStatus.Completed
  {
    FilterEmptyIff(events, IsCompleted);
    Count(events, IsCompleted)
  }

  /** `inProgressEvents`: the number of events in progress; 0 exactly when none is. */
  function InProgressEvents(events: seq<Event>): (n: nat)
    ensures n <= |events|
    ensures n == 0 <==> forall i :: 0 <= i < |events| ==> events[i].status != EventStatus.InProgress
  {
    FilterEmptyIff(events, IsInProgress);
    Count(events, IsInProgress)
  }

  /** No event is both completed and in progress, so the two cards never count more than "Total Events". */
  lemma EventCountsBounded(events: seq<Event>)
    ensures CompletedEvents(events) + InProgressEvents(events) <= |events|
  {
    FilterDisjoint(events, IsCompleted, IsInProgress);
  }

  /**
   * `Math.round(inProgress / total * 100) || 0`: the rounded share of events in
   * progress, 0 when there are no events (0 / 0 is NaN, and NaN || 0 is 0).
   */
  function InProgressPercent(events: seq<Event>): (r: int)
    ensures |events| == 0 ==> r == 0
    ensures 0 <= r <= 100
    ensures |events| > 0 ==> -|events| <= 2 * (100 * InProgressEvents(events) - r * |events|) < |events|
  {
    if |events| == 0 then 0 else RoundedPercent(InProgressEvents(events), |events|)
  }

  /**
   * The total attendee count, `events.reduce((acc, e) => acc + e.attendees, 0)`:
   * NaN as soon as one event's count is NaN, the plain sum otherwise.
   */
  function TotalAttendees(events: seq<Event>): (r: Num)
    ensures r.NaN? <==> exists i :: 0 <= i < |events| && events[i].attendees.NaN?
    ensures r.Finite? ==> r.value == Sum(events, (e: Event) => OrZero(e.attendees))
  {
    if |events| == 0 then Finite(0)
    else
      var rest := TotalAttendees(events[1..]);
      assert (exists i :: 0 <= i < |events| && events[i].attendees.NaN?) <==>
        (events[0].attendees.NaN? || exists i :: 0 <= i < |events[1..]| && events[1..][i].attendees.NaN?) by {
        if exists i :: 0 <= i < |events| && events[i].attendees.NaN? {
          var i :| 0 <= i < |events| && events[i].attendees.NaN?;
          if i > 0 { assert events[1..][i - 1].attendees.NaN?; }
        }
      }
      Add(events[0].attendees, rest)
  }
}
