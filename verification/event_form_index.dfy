/**
 * The second event form, `src/components/EventForm/index.tsx`, which adds an
 * estimated-budget field. It shares the date checks of `EventForm`; it
 * differs in the payload (the parsed estimate becomes the budget total, and
 * unparsable attendees become 0) and in a prefill that reads the event's
 * budget.
 *
 * `parseFloat` and the number-to-text conversion of amounts are parameters:
 * amounts are whole cents here, and decimal formatting is not modelled.
 */
module EventFormIndex {
  import opened Wrappers
  import opened Numbers
  import opened Types
  import opened Text
  import EventForm

  type Moment = EventForm.Moment

  /** The form's fields: those of `EventForm` plus the estimated budget's text. */
  datatype FormData = FormData(
    title: string,
    description: string,
    location: string,
    startDate: Moment,
    endDate: Moment,
    startTime: string,
    endTime: string,
    status: EventStatus,
    attendees: string,
    estimatedBudget: string)

  /** The initial form, opened at moment `now`; the estimate reads "0". */
  function Defaults(now: Moment): (f: FormData)
    ensures f.title == "" && f.description == "" && f.location == ""
    ensures f.startDate == now && f.endDate == now
    ensures f.startTime == "09:00" && f.endTime == "17:00"
    ensures f.status == NotStarted && f.attendees == "0" && f.estimatedBudget == "0"
  {
    FormData("", "", "", now, now, "09:00", "17:00", NotStarted, "0", "0")
  }

  /**
   * The prefill from an event being edited. It reads
   * `event.budget.totalEstimated`, so an event without a budget (every
   * built-in sample event) makes it fail: `None`. As in `EventForm.Prefill`,
   * the stored dates come back with the times of day they were saved with.
   */
  function Prefill(e: Event, startMillis: int, endMillis: int, showAmount: int -> string): (r: Option<FormData>)
    ensures r.None? <==> e.budget.None?
    ensures r.Some? ==> r.value.estimatedBudget == showAmount(e.budget.value.totalEstimated)
    ensures r.Some? ==> r.value.title == e.title && r.value.status == e.status
    ensures r.Some? ==> r.value.description == OrEmpty(e.description) && r.value.location == OrEmpty(e.location)
    ensures r.Some? ==> r.value.startDate == EventForm.Moment(e.startDate, startMillis)
    ensures r.Some? ==> r.value.endDate == EventForm.Moment(e.endDate, endMillis)
    ensures r.Some? ==> ParseInt(r.value.attendees) == e.attendees
  {
    match e.budget
    case None => None
    case Some(b) =>
      ParseNumRoundTrip(e.attendees);
      Some(FormData(e.title, OrEmpty(e.description), OrEmpty(e.location),
                    EventForm.Moment(e.startDate, startMillis), EventForm.Moment(e.endDate, endMillis),
                    e.startTime, e.endTime, e.status, NumToString(e.attendees), showAmount(b.totalEstimated)))
  }

  /** The same form without the estimate, as `EventForm` has it. */
  function Core(f: FormData): EventForm.FormData {
    EventForm.FormData(f.title, f.description, f.location, f.startDate, f.endDate,
                       f.startTime, f.endTime, f.status, f.attendees)
  }

  /**
   * `handleSubmit`: the same two refusals, in the same order, as
   * `EventForm.Submit`; an accepted form sends the attendees parsed with
   * `parseInt(..) || 0` and a budget whose estimate is the parsed estimate
   * (0 when unparsable), with nothing spent and no items.
   */
  function Submit(f: FormData, parseAmount: string -> Num): (r: EventForm.Outcome)
    ensures r.Rejected? <==> EventForm.Submit(Core(f)).Rejected?
    ensures r.Rejected? ==> r == EventForm.Submit(Core(f))
    ensures r.Submitted? ==> r.draft.budget == Some(Budget(OrZero(parseAmount(f.estimatedBudget)), 0, []))
    ensures r.Submitted? ==> r.draft.attendees == Finite(OrZero(ParseInt(f.attendees)))
    ensures r.Submitted? ==>
      r.draft.(attendees := ParseInt(f.attendees), budget := Some(EventForm.EmptyBudget)) == EventForm.Submit(Core(f)).draft
  {
    match EventForm.Submit(Core(f))
    case Rejected(message) => EventForm.Rejected(message)
    case Submitted(d) =>
      EventForm.Submitted(d.(attendees := Finite(OrZero(ParseInt(f.attendees))),
                             budget := Some(Budget(OrZero(parseAmount(f.estimatedBudget)), 0, []))))
  }

  /** The attendee count this form submits is never NaN, and a number typed in comes back unchanged. */
  lemma AttendeesAlwaysNumber(f: FormData, parseAmount: string -> Num, n: int)
    ensures Submit(f, parseAmount).Submitted? ==> Submit(f, parseAmount).draft.attendees.Finite?
    ensures Submit(f.(attendees := IntToString(n)), parseAmount).Submitted? ==>
      Submit(f.(attendees := IntToString(n)), parseAmount).draft.attendees == Finite(n)
  {
    ParseIntRoundTrip(n);
  }

  /**
   * Editing an event with a budget without changing anything submits its
   * estimate back (when amounts survive their text form) and drops its
   * spending and items.
   */
  lemma EditKeepsEstimateOnly(e: Event, startMillis: int, endMillis: int,
                               showAmount: int -> string, parseAmount: string -> Num)
    requires e.budget.Some? && e.title != ""
    requires !EventForm.After(EventForm.Moment(e.startDate, startMillis), EventForm.Moment(e.endDate, endMillis))
    requires forall x :: parseAmount(showAmount(x)) == Finite(x)
    ensures Prefill(e, startMillis, endMillis, showAmount).Some?
    ensures Submit(Prefill(e, startMillis, endMillis, showAmount).value, parseAmount).Submitted?
    ensures Submit(Prefill(e, startMillis, endMillis, showAmount).value, parseAmount).draft.budget
      == Some(Budget(e.budget.value.totalEstimated, 0, []))
  {
  }
}
