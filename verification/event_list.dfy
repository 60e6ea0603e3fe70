/**
 * The event list page of `src/pages/EventList.tsx`: the search and status
 * filter over the events, and the two-step delete (pick an event, confirm).
 */
module EventList {
  import opened Wrappers
  import opened Types
  import opened Text
  import opened Seqs
  import opened EventStore

  /**
   * The search half of the filter: the lower-cased query occurs in the
   * lower-cased title, or in the lower-cased description when that is a
   * non-empty string.
   */
  predicate MatchesSearch(e: Event, query: string) {
    Includes(ToLower(e.title), ToLower(query))
    || (Truthy(e.description) && Includes(ToLower(e.description.value), ToLower(query)))
  }

  /** The status half of the filter: `"all"`, or the event's status label. */
  predicate MatchesStatus(e: Event, statusFilter: string) {
    statusFilter == "all" || EventStatusLabel(e.status) == statusFilter
  }

  predicate Keep(e: Event, query: string, statusFilter: string) {
    MatchesSearch(e, query) && MatchesStatus(e, statusFilter)
  }

  /**
   * `filteredEvents`: the events matching both the search and the status
   * filter, in list order; an event is kept exactly when it matches both.
   */
  function FilteredEvents(events: seq<Event>, query: string, statusFilter: string): (r: seq<Event>)
    ensures IsSubsequence(r, events)
    ensures forall i :: 0 <= i < |r| ==> r[i] in events && Keep(r[i], query, statusFilter)
    ensures forall i :: 0 <= i < |events| && Keep(events[i], query, statusFilter) ==> events[i] in r
    ensures forall e :: e in events ==>
      multiset(r)[e] == if Keep(e, query, statusFilter) then multiset(events)[e] else 0
  {
    FilterMultiset(events, (e: Event) => Keep(e, query, statusFilter));
    Filter(events, (e: Event) => Keep(e, query, statusFilter))
  }

  /** Under any filter other than `"all"`, every kept event has exactly the selected status. */
  lemma FilteredHaveStatus(events: seq<Event>, query: string, statusFilter: string)
    requires statusFilter != "all"
    ensures forall i :: 0 <= i < |FilteredEvents(events, query, statusFilter)| ==>
      EventStatusLabel(FilteredEvents(events, query, statusFilter)[i].status) == statusFilter
  {
  }

  /**
   * The search in the string terms of the page: an event matches iff the
   * lower-cased query occurs at some position of its lower-cased title or of
   * its lower-cased, non-empty description.
   */
  lemma MatchesSearchIff(e: Event, query: string)
    ensures MatchesSearch(e, query) <==>
      (exists i :: OccursAt(ToLower(e.title), ToLower(query), i))
      || (e.description.Some? && e.description.value != ""
          && exists i :: OccursAt(ToLower(e.description.value), ToLower(query), i))
  {
  }

  /** An empty query with the filter `"all"` keeps every event, in order. */
  lemma EmptySearchKeepsAll(events: seq<Event>)
    ensures FilteredEvents(events, "", "all") == events
  {
    forall i | 0 <= i < |events| ensures Keep(events[i], "", "all") {
      IncludesEmpty(ToLower(events[i].title));
    }
    FilterAll(events, (e: Event) => Keep(e, "", "all"));
  }

  // ------------------------------------------------------------- deleting

  /** The list page's delete state: the id waiting for confirmation, and whether the dialog shows. */
  datatype DeleteState = DeleteState(events: seq<Event>, pending: Option<string>, dialogOpen: bool)

  /** `handleDeleteClick`: remember the id and open the dialog. */
  function DeleteClick(st: DeleteState, id: string): (r: DeleteState)
    ensures r.events == st.events && r.pending == Some(id) && r.dialogOpen
  {
    st.(pending := Some(id), dialogOpen := true)
  }

  /**
   * `confirmDelete`: with a (non-empty) pending id, delete that event, clear
   * the id and close the dialog; otherwise nothing happens.
   */
  function ConfirmDelete(st: DeleteState): (r: DeleteState)
    ensures Truthy(st.pending) ==>
      r.pending.None? && !r.dialogOpen && !HasId(r.events, st.pending.value)
      && IsSubsequence(r.events, st.events)
      && forall i :: 0 <= i < |st.events| && st.events[i].id != st.pending.value ==> st.events[i] in r.events
    ensures !Truthy(st.pending) ==> r == st
  {
    if Truthy(st.pending) then
      DeleteState(DeleteEvent(st.events, st.pending.value), None, false)
    else
      st
  }

  /** Picking an event and confirming removes it (and only events with its id) and resets the dialog. */
  lemma ClickThenConfirm(st: DeleteState, id: string)
    requires id != ""
    ensures ConfirmDelete(DeleteClick(st, id)) == DeleteState(DeleteEvent(st.events, id), None, false)
  {
  }
}
