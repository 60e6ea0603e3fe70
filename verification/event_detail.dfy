/**
 * The event detail page of `src/pages/EventDetail.tsx`: the split of the task
 * list into pending and completed tasks, the summary counts, and where the
 * "open in Google Maps" button points.
 */
module EventDetail {
  import opened Wrappers
  import opened Types
  import opened Text
  import opened Seqs
  import opened EventStore

  predicate IsPending(t: Task) {
    !t.completed
  }

  /** `pendingTasks`: the tasks not completed, in list order. */
  function PendingTasks(tasks: seq<Task>): (r: seq<Task>)
    ensures IsSubsequence(r, tasks)
    ensures forall i :: 0 <= i < |r| ==> r[i] in tasks && !r[i].completed
    ensures forall i :: 0 <= i < |tasks| && !tasks[i].completed ==> tasks[i] in r
    ensures forall t :: t in tasks ==> multiset(r)[t] == if !t.completed then multiset(tasks)[t] else 0
  {
    FilterMultiset(tasks, IsPending);
    Filter(tasks, IsPending)
  }

  /** `completedTasks`: the completed tasks, in list order. */
  function CompletedTasks(tasks: seq<Task>): (r: seq<Task>)
    ensures IsSubsequence(r, tasks)
    ensures forall i :: 0 <= i < |r| ==> r[i] in tasks && r[i].completed
    ensures forall i :: 0 <= i < |tasks| && tasks[i].completed ==> tasks[i] in r
    ensures |r| == CompletedCount(tasks)
    ensures forall t :: t in tasks ==> multiset(r)[t] == if t.completed then multiset(tasks)[t] else 0
  {
    FilterMultiset(tasks, IsDone);
    Filter(tasks, IsDone)
  }

  /** The summary card's "Completed" and "Pending" counts add up to "Total Tasks". */
  lemma TaskCountsAddUp(tasks: seq<Task>)
    ensures |PendingTasks(tasks)| + |CompletedTasks(tasks)| == |tasks|
  {
    FilterPartition(tasks, IsPending, IsDone);
  }

  predicate IsHigh(t: Task) {
    t.priority == High
  }

  /** The priority of each task, in list order. */
  function Priorities(tasks: seq<Task>): (r: seq<Priority>)
    ensures |r| == |tasks|
    ensures forall i :: 0 <= i < |tasks| ==> r[i] == tasks[i].priority
  {
    if |tasks| == 0 then [] else [tasks[0].priority] + Priorities(tasks[1..])
  }

  /** The "High Priority" count: the number of tasks of priority High. */
  function HighPriorityCount(tasks: seq<Task>): (n: nat)
    ensures n == multiset(Priorities(tasks))[High]
    ensures n <= |tasks|
    ensures n == 0 <==> forall i :: 0 <= i < |tasks| ==> tasks[i].priority != High
    ensures n == |tasks| <==> forall i :: 0 <= i < |tasks| ==> tasks[i].priority == High
  {
    FilterEmptyIff(tasks, IsHigh);
    FilterFullIff(tasks, IsHigh);
    HighCountIsMultiplicity(tasks);
    |Filter(tasks, IsHigh)|
  }

  /** Filtering the High tasks keeps one task for each occurrence of High among the priorities. */
  lemma {:induction false} HighCountIsMultiplicity(tasks: seq<Task>)
    ensures |Filter(tasks, IsHigh)| == multiset(Priorities(tasks))[High]
  {
    if |tasks| > 0 {
      HighCountIsMultiplicity(tasks[1..]);
      assert Priorities(tasks) == [tasks[0].priority] + Priorities(tasks[1..]);
    }
  }

  /** Where the maps button sends the browser. */
  datatype MapsTarget = PlaceLink(placeId: string) | SearchLink(query: string) | Nowhere

  /**
   * `openGoogleMaps`: a non-empty place id wins; otherwise a non-empty
   * location is searched for; with neither, nothing opens. The page calls it
   * only from the location line, which it shows only for a non-empty
   * location, so a place link without a location and `Nowhere` are never
   * reached there.
   */
  function MapsTargetOf(e: Event): (r: MapsTarget)
    ensures r.PlaceLink? <==> Truthy(e.placeId)
    ensures r.PlaceLink? ==> r.placeId == e.placeId.value
    ensures r.SearchLink? <==> !Truthy(e.placeId) && Truthy(e.location)
    ensures r.SearchLink? ==> r.query == e.location.value
    ensures r.Nowhere? <==> !Truthy(e.placeId) && !Truthy(e.location)
  {
    if Truthy(e.placeId) then PlaceLink(e.placeId.value)
    else if Truthy(e.location) then SearchLink(e.location.value)
    else Nowhere
  }

  /** The "Budget" line of the summary card reads `event.budget.totalEstimated`, which fails when the event has no budget. */
  function SummaryBudget(e: Event): (r: Option<int>)
    ensures r.None? <==> e.budget.None?
    ensures r.Some? ==> r.value == e.budget.value.totalEstimated
  {
    match e.budget
    case None => None
    case Some(b) => Some(b.totalEstimated)
  }
}
