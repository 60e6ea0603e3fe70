/**
 * The event form of `src/components/EventForm.tsx`, the one the create and
 * edit pages use: its defaults, the prefill from an event being edited, and
 * the submit handler's checks and payload.
 *
 * The form keeps its dates as `Date` objects, so they carry a time of day: a
 * fresh form holds the moment it was opened, and a date picked in the
 * calendar holds midnight. The payload spreads the form, so a stored event's
 * dates keep whatever time of day the form held, and `new Date(event.startDate)`
 * gives that time back when the event is edited. `Moment` keeps both parts;
 * an `Event` keeps only the day, so the prefill takes the stored times of day
 * as parameters.
 */
module EventForm {
  import opened Wrappers
  import opened Numbers
  import opened Types
  import opened Text
  import opened EventStore

  /** A point in time: a day number and the milliseconds since that day's midnight. */
  datatype Moment = Moment(day: int, millis: int)

  predicate ValidMoment(m: Moment) {
    0 <= m.millis < 86400000
  }

  /** `a > b` on `Date` objects: the later day, or the same day at a later time. */
  predicate After(a: Moment, b: Moment) {
    a.day > b.day || (a.day == b.day && a.millis > b.millis)
  }

  /** Midnight of a day: what the calendar picker produces, and what a plain date such as "2023-12-10" reads as. */
  function Midnight(day: int): Moment {
    Moment(day, 0)
  }

  /** The form's fields; `attendees` is the text of the number input. */
  datatype FormData = FormData(
    title: string,
    description: string,
    location: string,
    startDate: Moment,
    endDate: Moment,
    startTime: string,
    endTime: string,
    status: EventStatus,
    attendees: string)

  /** The initial form, opened at moment `now`. */
  function Defaults(now: Moment): (f: FormData)
    ensures f.title == "" && f.description == "" && f.location == ""
    ensures f.startDate == now && f.endDate == now
    ensures f.startTime == "09:00" && f.endTime == "17:00"
    ensures f.status == NotStarted && f.attendees == "0"
  {
    FormData("", "", "", now, now, "09:00", "17:00", NotStarted, "0")
  }

  /**
   * The form filled in from an event being edited; an absent description or
   * location becomes "". `startMillis` and `endMillis` are the times of day
   * the stored dates carry: 0 for a date picked in the calendar or written as
   * a plain date (every sample event), the moment of opening for a date a new
   * form submitted untouched.
   */
  function Prefill(e: Event, startMillis: int, endMillis: int): (f: FormData)
    ensures f.title == e.title && f.status == e.status
    ensures f.description == OrEmpty(e.description) && f.location == OrEmpty(e.location)
    ensures f.startDate == Moment(e.startDate, startMillis) && f.endDate == Moment(e.endDate, endMillis)
    ensures f.startTime == e.startTime && f.endTime == e.endTime
    ensures ParseInt(f.attendees) == e.attendees
  {
    ParseNumRoundTrip(e.attendees);
    FormData(e.title, OrEmpty(e.description), OrEmpty(e.location),
             Moment(e.startDate, startMillis), Moment(e.endDate, endMillis),
             e.startTime, e.endTime, e.status, NumToString(e.attendees))
  }

  /** What a submit does: show an error and stop, or hand a new event to the page. */
  datatype Outcome = Rejected(message: string) | Submitted(draft: EventDraft)

  /** The budget every submit carries, for a new event and an edited one alike. */
  const EmptyBudget := Budget(0, 0, [])

  /**
   * `handleSubmit`: an empty title is refused first, then a start later than
   * the end; otherwise the fields go out with the attendees text parsed by
   * `parseInt` (NaN when it holds no number), no place id, and an empty budget.
   */
  function Submit(f: FormData): (r: Outcome)
    ensures f.title == "" ==> r == Rejected("Event title is required")
    ensures f.title != "" && After(f.startDate, f.endDate) ==> r == Rejected("End date cannot be before start date")
    ensures r.Submitted? <==> f.title != "" && !After(f.startDate, f.endDate)
    ensures r.Submitted? ==> r.draft == EventDraft(
      f.title, Some(f.description), Some(f.location), None, f.startDate.day, f.endDate.day,
      f.startTime, f.endTime, f.status, ParseInt(f.attendees), Some(EmptyBudget))
  {
    if f.title == "" then Rejected("Event title is required")
    else if After(f.startDate, f.endDate) then Rejected("End date cannot be before start date")
    else Submitted(EventDraft(
      f.title, Some(f.description), Some(f.location), None, f.startDate.day, f.endDate.day,
      f.startTime, f.endTime, f.status, ParseInt(f.attendees), Some(EmptyBudget)))
  }

  /** On dates that are both midnights, the check refuses exactly a start day after the end day. */
  lemma MidnightDatesCompareByDay(f: FormData)
    requires f.title != "" && f.startDate.millis == 0 && f.endDate.millis == 0
    ensures Submit(f).Submitted? <==> f.startDate.day <= f.endDate.day
  {
  }

  /**
   * A form opened at 10:30 whose end day is then picked as the same day in
   * the calendar (midnight) is refused: the start "is after" the end.
   */
  lemma SameDayRefused(now: Moment)
    requires ValidMoment(now) && now.millis == 37800000
    ensures Submit(Defaults(now).(title := "Launch", endDate := Midnight(now.day)))
      == Rejected("End date cannot be before start date")
  {
  }

  /**
   * The same refusal on the edit path: a one-day event created at 10:30 with
   * untouched dates is stored at 10:30; editing it and picking its day as the
   * end in the calendar is refused, while the by-day check accepts it.
   */
  lemma EditSameDayRefused(e: Event)
    requires e.title != "" && e.startDate == e.endDate
    ensures var f := Prefill(e, 37800000, 37800000).(endDate := Midnight(e.startDate));
      Submit(f) == Rejected("End date cannot be before start date") && SubmitByDay(f).Submitted?
  {
  }

  /**
   * The evidently intended check: compare calendar days only, so a start on
   * the end day is accepted whatever the times of day.
   */
  function SubmitByDay(f: FormData): (r: Outcome)
    ensures f.title == "" ==> r == Rejected("Event title is required")
    ensures r.Submitted? <==> f.title != "" && f.startDate.day <= f.endDate.day
    ensures r.Submitted? ==> Submit(f.(startDate := Midnight(f.startDate.day), endDate := Midnight(f.endDate.day))) == r
  {
    if f.title == "" then Rejected("Event title is required")
    else if f.startDate.day > f.endDate.day then Rejected("End date cannot be before start date")
    else Submit(f.(startDate := Midnight(f.startDate.day), endDate := Midnight(f.endDate.day)))
  }

  /** Where the old check accepts, the by-day check accepts the same payload. */
  lemma SubmitByDayExtends(f: FormData)
    requires Submit(f).Submitted?
    ensures SubmitByDay(f) == Submit(f)
  {
  }

  /**
   * Editing an event without changing anything submits its own fields back,
   * except that an absent description or location comes back as "", the
   * place id is dropped, and the budget is the empty one.
   */
  lemma EditRoundTrip(e: Event, startMillis: int, endMillis: int)
    requires e.title != "" && !After(Moment(e.startDate, startMillis), Moment(e.endDate, endMillis))
    ensures Submit(Prefill(e, startMillis, endMillis)) == Submitted(EventDraft(
      e.title, Some(OrEmpty(e.description)), Some(OrEmpty(e.location)), None, e.startDate, e.endDate,
      e.startTime, e.endTime, e.status, e.attendees, Some(EmptyBudget)))
  {
  }

  /**
   * Saving an edit through `updateEvent` replaces the event's budget with the
   * empty one, dropping its items, and keeps its id, tasks and progress.
   */
  lemma EditDropsBudgetItems(events: seq<Event>, e: Event, i: int, startMillis: int, endMillis: int)
    requires 0 <= i < |events| && events[i].id == e.id
    requires e.title != "" && !After(Moment(e.startDate, startMillis), Moment(e.endDate, endMillis))
    ensures var d := Submit(Prefill(e, startMillis, endMillis)).draft;
      var r := UpdateEvent(events, e.id, DraftAsEventPatch(d));
      r[i].budget == Some(EmptyBudget) && r[i].id == events[i].id
      && r[i].tasks == events[i].tasks && r[i].progress == events[i].progress
  {
    EditRoundTrip(e, startMillis, endMillis);
  }
}
