# Event planner core, modelled in Dafny

This project models the core of a small React event-planning application:

- **The event store.** Its provider keeps a list of events. Each event owns an ordered task list, a progress percentage and an optional budget. The provider offers these operations:
  - add, update, delete and look up an event;
  - add, update, delete and toggle a task;
  - recompute progress.
- **The views.** These are the pure derivations the pages draw from the store:
  - the dashboard's statistics and its three upcoming events;
  - the event list's search and status filter, and its delete confirmation;
  - the calendar's per-day listing, its day markers and its month navigation;
  - the event detail page's task partition, high-priority count, maps link and summary;
  - the budget chart's group-by-category and group-by-status reductions, its variance and its slice colours;
  - a budget line's variance and status colour.
- **The forms.** These are the event form and its second variant with an estimated budget, the task form, the budget-line form and the registration page. Each has a submit guard, a payload, defaults and an edit prefill.
- **The authentication provider.** This is a state machine over `{token, isAuthenticated, user, loading, error}` together with the token kept in browser storage. Each server answer is an input.

How the model represents the program:

- Everything is an immutable datatype with pure functions.
- Dates are day numbers (days since 1970-01-01). `CivilDates` ties them to calendar dates.
- Money is whole cents.
- A JavaScript number that may be `NaN` is a `Num`.
- `parseInt` is modelled on strings: leading white space, sign, `0x` prefix and digit prefix.
- `parseFloat` and amount formatting are parameters.
- Identifiers from `uuid` are fresh-id parameters.
- Browser storage is an explicit optional snapshot of the event list. `getEvent` reads the snapshot, so it is part of the state.

Modules, one per file:

- `Wrappers`, `Seqs`, `Text` and `Numbers` are shared helpers.
- `CivilDates` handles calendar dates.
- `Types` holds the records and enums of `src/types.ts`.
- `EventStore` is the provider.
- `Dashboard`, `EventList`, `Calendar`, `EventDetail`, `BudgetChart` and `BudgetItemView` are the views.
- `EventForm`, `EventFormIndex`, `TaskForm`, `BudgetForm` and `Register` are the forms.
- `Auth` is the authentication provider.

The create and edit pages import `@/components/EventForm`. This resolves to `src/components/EventForm.tsx`, so that file's form is the one the rest of the model uses. `EventFormIndex` models the directory variant next to it.

## Model

| member | source | states |
|---|---|---|
| Types.MergeTask | src/types.ts:2-8 | `{ ...task, ...patch }` on a task: each field is the patch's value when the patch has one, and the task's otherwise |
| Types.MergeTaskLaws | src/types.ts:2-8 | merging an empty task patch changes nothing, and merging the same patch twice is the same as merging it once |
| Types.MergeEventLaws | src/types.ts:19-38 | merging an empty event patch changes nothing, and merging the same patch twice is the same as merging it once |
| Types.DraftAsTaskPatch | src/types.ts:46 | a task-form payload used as a patch never touches `id` or `completed` and sets exactly title, description and priority |
| Types.DraftAsEventPatch | src/types.ts:42 | an event-form payload used as a patch never touches `id`, `progress` or `tasks`; each optional field is set exactly when the payload has it |
| Types.ParsePriority | src/types.ts:7 | reading a priority label is the inverse of writing one: it succeeds exactly on the three labels Low, Medium and High |
| Types.ParseBudgetStatus | src/types.ts:16 | reading a budget status is the inverse of its label, for the three labels Planned, In Progress and Completed |
| Types.ParseEventStatus | src/types.ts:29 | reading an event status is the inverse of its label, for the four labels |
| Types.ParseUserRole | src/types.ts:55 | reading a role is the inverse of its label, for exactly admin, organizer and attendee |
| EventStore.ProgressOf | src/context/EventContext.tsx:174-175 | for a non-empty task list, progress is 100·completed/total rounded half up, lies in 0..100, is 100 when all tasks are done and 0 when none are |
| EventStore.SeedDates | src/context/EventContext.tsx:13-79 | the sample events' day numbers are those of 2023-12-10/12, 2023-11-20 and 2023-09-15/17 |
| EventStore.SeedProgressDisagrees | src/context/EventContext.tsx:17-108 | the first two sample events break the progress rule (65 shown where 67 is due, 30 where 50 is due); the third satisfies it |
| EventStore.SeedIdsUnique | src/context/EventContext.tsx:7-109 | the sample events have distinct ids |
| EventStore.Load | src/context/EventContext.tsx:114-117 | the store starts from the stored list when storage holds one, and from the samples otherwise |
| EventStore.Persist | src/context/EventContext.tsx:119-120 | the effect writes the live list into storage and leaves the live list alone |
| EventStore.AddEvent | src/context/EventContext.tsx:135-146 | exactly one event is appended at the end, with the fresh id, progress 0, no tasks and every supplied field (budget included) copied; the earlier events stay as they were; the fresh id is returned |
| EventStore.AddEventKeepsIdsUnique | src/context/EventContext.tsx:135-146 | with a fresh id, event ids stay unique |
| EventStore.UpdateEvent | src/context/EventContext.tsx:148-155 | the patch is merged into the events with the id; length, order and every other event are unchanged; an unknown id changes nothing |
| EventStore.UpdateEventKeepsIdsUnique | src/context/EventContext.tsx:148-155 | a patch that does not set `id` keeps event ids unique |
| EventStore.DeleteEvent | src/context/EventContext.tsx:157-160 | no event with the id remains, every other event remains, and the result is an order-preserving subsequence; every other event keeps its number of occurrences; an unknown id changes nothing |
| EventStore.DeleteEventKeepsIdsUnique | src/context/EventContext.tsx:157-160 | deleting keeps event ids unique |
| EventStore.Find | src/context/EventContext.tsx:167 | the first event with the id, or nothing exactly when no event has the id |
| EventStore.ReadList | src/context/EventContext.tsx:164-165 | the list `getEvent` searches is the stored snapshot when there is one, and the live list otherwise |
| EventStore.GetEvent | src/context/EventContext.tsx:162-168 | the result is missing exactly when the searched list has no such id; when found, it has the id and is in that list |
| EventStore.GetEventAfterPersist | src/context/EventContext.tsx:162-168 | once the effect has run, `getEvent` finds events in the live list |
| EventStore.CalculateProgress | src/context/EventContext.tsx:170-179 | a progress write is queued exactly when the event is found and has tasks; the write and the return value are then its rounded percentage; otherwise 0 is returned and nothing is written |
| EventStore.MapTasks | src/context/EventContext.tsx:188-199 | only the task lists of the events with the id are replaced; everything else is unchanged |
| EventStore.RunTaskChange | src/context/EventContext.tsx:188-201 | a task operation changes the target's task list and writes the progress read beforehand, keeping the old progress when nothing was written; other events are unchanged |
| EventStore.AddTask | src/context/EventContext.tsx:181-203 | one uncompleted task with the fresh id is appended to the target's tasks only; the target's other fields other than progress and every other event are unchanged |
| EventStore.AddTaskKeepsTaskIdsUnique | src/context/EventContext.tsx:181-203 | a fresh task id keeps the target's task ids unique |
| EventStore.PatchTasks | src/context/EventContext.tsx:209-211 | tasks with the id get the patch merged in; the others, the count and the order are unchanged |
| EventStore.UpdateTask | src/context/EventContext.tsx:205-223 | in the target event only, the tasks with the id are merged with the patch; task count and order are unchanged |
| EventStore.RemoveTasks | src/context/EventContext.tsx:229 | no task with the id remains, every other task remains as often as before, and their order is kept |
| EventStore.DeleteTask | src/context/EventContext.tsx:225-241 | the tasks with the id are removed from the target event only; the rest keep their order |
| EventStore.ToggleTaskComplete | src/context/EventContext.tsx:243-251 | toggling is exactly `updateTask(e, t, {completed: c})`, and it sets the completion flag of the matching tasks to `c` |
| EventStore.TaskChangeProgressIsStale | src/context/EventContext.tsx:170-241 | once storage is up to date, a task operation writes the progress of the task list before the change, and keeps the old progress when that list was empty |
| EventStore.LaunchScenarioAsWritten | src/context/EventContext.tsx:181-251 | adding T1, completing it and adding T2 shows progress 0, 0, 100 where 0, 100, 50 is due |
| EventStore.LaunchInconsistent | src/context/EventContext.tsx:170-179 | the two later states of that scenario break the progress rule |
| EventStore.Refresh | src/context/EventContext.tsx:170-179 | recomputing progress from the event's own tasks makes it consistent, changes nothing but progress, and leaves a consistent event as it was |
| EventStore.RunTaskChangeFresh | src/context/EventContext.tsx:170-201 | the corrected task operation makes the target consistent and preserves consistency of the whole store |
| EventStore.AddTaskFresh | src/context/EventContext.tsx:181-203 | the corrected `addTask`: the same task list as `addTask`, with consistent progress |
| EventStore.UpdateTaskFresh | src/context/EventContext.tsx:205-223 | the corrected `updateTask`: the same task list, with consistent progress |
| EventStore.DeleteTaskFresh | src/context/EventContext.tsx:225-241 | the corrected `deleteTask`: the same task list, with progress reset to 0 when the last task goes |
| EventStore.ToggleTaskCompleteFresh | src/context/EventContext.tsx:243-251 | the corrected toggle is the corrected update with `{completed}` and leaves the target consistent |
| EventStore.LaunchScenarioFresh | src/context/EventContext.tsx:181-251 | with the corrected operations the same scenario shows 0, 100 and 50 |
| Dashboard.UpcomingEvents | src/pages/Dashboard.tsx:13-16 | at most three events that are neither completed nor cancelled, taken from the list and sorted by start day; no upcoming event left out starts before a chosen one; the list itself is not reordered |
| Dashboard.TotalTasks | src/pages/Dashboard.tsx:22 | the task total is non-negative, and 0 exactly when no event has a task |
| Dashboard.CompletedTasks | src/pages/Dashboard.tsx:23-26 | the completed-task total is non-negative, and 0 exactly when no event has a completed task |
| Dashboard.CompletedEvents | src/pages/Dashboard.tsx:20 | the completed-event count is at most the number of events, and 0 exactly when none is completed |
| Dashboard.InProgressEvents | src/pages/Dashboard.tsx:21 | the in-progress count is at most the number of events, and 0 exactly when none is in progress |
| Dashboard.EventCountsBounded | src/pages/Dashboard.tsx:19-21 | the completed and in-progress counts together never exceed the total number of events |
| Dashboard.CompletedTasksBounded | src/pages/Dashboard.tsx:22-26 | the completed-task total never exceeds the task total |
| Dashboard.TotalsAdd | src/pages/Dashboard.tsx:22-26 | both task totals are sums over the events: the totals of two lists joined together add up |
| Dashboard.InProgressPercent | src/pages/Dashboard.tsx:65 | the share of events in progress, rounded half up, in 0..100, and 0 when there are no events |
| Dashboard.TotalAttendees | src/pages/Dashboard.tsx:88 | the attendee total is the sum of the events' counts, and it is NaN exactly when one count is NaN |
| EventList.FilteredEvents | src/pages/EventList.tsx:45-52 | an order-preserving subsequence of the events holding exactly those that match both the search and the status filter, each as often as in the list |
| EventList.FilteredHaveStatus | src/pages/EventList.tsx:49 | unless the filter is "all", every kept event has the selected status |
| EventList.MatchesSearchIff | src/pages/EventList.tsx:46-47 | an event matches iff the lower-cased query occurs in its lower-cased title or in its lower-cased, non-empty description |
| EventList.EmptySearchKeepsAll | src/pages/EventList.tsx:46-49 | an empty query with the filter "all" keeps every event, in order |
| EventList.DeleteClick | src/pages/EventList.tsx:31-34 | clicking delete remembers the id and opens the dialog; the events are untouched |
| EventList.ConfirmDelete | src/pages/EventList.tsx:36-42 | with a pending id, that event goes, the others stay in order, and the id is cleared and the dialog closed; without one, nothing changes |
| EventList.ClickThenConfirm | src/pages/EventList.tsx:31-42 | clicking then confirming deletes exactly that event and resets the dialog |
| Calendar.EventsOn | src/pages/Calendar.tsx:17-30 | with a selected day, an order-preserving subsequence holding exactly the events whose inclusive range covers it, each as often as in the list; with none, nothing |
| Calendar.MarkerIff | src/pages/Calendar.tsx:112-139 | a day shows the marker iff some event's inclusive day range covers it |
| Calendar.TargetMonth | src/pages/Calendar.tsx:71 | the month `delta` months away, counted across year boundaries |
| Calendar.ShiftMonth | src/pages/Calendar.tsx:69-96 | `setMonth(getMonth() ± 1)`: a valid date that is the target month's first day plus the old day-of-month minus one, running on into the next month when the day does not exist |
| Calendar.ShiftMonthMovesByDeltaIff | src/pages/Calendar.tsx:69-96 | the buttons move the shown month by exactly ±1 iff the shown day of the month exists in the target month |
| Calendar.NextSkipsFebruary | src/pages/Calendar.tsx:92-96 | from January 31, 2025 the next button shows March 3 |
| Calendar.PreviousStaysInMarch | src/pages/Calendar.tsx:69-73 | from March 31, 2025 the previous button shows March 3 again |
| Calendar.ShiftMonthClamped | src/pages/Calendar.tsx:69-96 | the corrected navigation always moves by exactly `delta` months, keeping the day or clamping it to the month's end |
| Calendar.ClampedAgreesWhenDayExists | src/pages/Calendar.tsx:69-96 | the corrected navigation agrees with the original whenever the day exists in the target month |
| Calendar.ClampedNextThenPrevious | src/pages/Calendar.tsx:69-96 | with the corrected navigation, next then previous returns to the same month |
| Calendar.PreviousMonth | src/pages/Calendar.tsx:69-73 | the previous button shifts the shown date back a month and keeps the selection |
| Calendar.NextMonth | src/pages/Calendar.tsx:92-96 | the next button shifts the shown date forward a month and keeps the selection |
| Calendar.Today | src/pages/Calendar.tsx:81-84 | "Today" sets both the shown month and the selected day to today |
| Calendar.TodayListsTodaysEvents | src/pages/Calendar.tsx:81-84 | after "Today", the page lists exactly the events running today |
| EventDetail.PendingTasks | src/pages/EventDetail.tsx:171 | the uncompleted tasks, exactly, each as often as in the list, in original order |
| EventDetail.CompletedTasks | src/pages/EventDetail.tsx:172 | the completed tasks, exactly, each as often as in the list, in original order, as many as the store counts as done |
| EventDetail.TaskCountsAddUp | src/pages/EventDetail.tsx:261-270 | pending plus completed is the task total |
| EventDetail.HighPriorityCount | src/pages/EventDetail.tsx:274 | the count is the number of occurrences of High among the tasks' priorities; so it is 0 iff no task is High and equals the total iff every task is High |
| EventDetail.HighCountIsMultiplicity | src/pages/EventDetail.tsx:274 | filtering the High tasks keeps exactly one task per occurrence of High in the priority list |
| EventDetail.MapsTargetOf | src/pages/EventDetail.tsx:90-96 | a place link iff a non-empty place id exists; otherwise a search link iff a non-empty location exists; otherwise nothing opens |
| EventDetail.SummaryBudget | src/pages/EventDetail.tsx:279 | the summary shows the budget estimate, and it cannot be shown for an event without a budget (every sample event) |
| BudgetChart.FindName | src/components/BudgetChart.tsx:20 | the index of the group with the name, or the length exactly when there is none |
| BudgetChart.AddRow | src/components/BudgetChart.tsx:19-46 | a row with a known key adds into that group and keeps the count; a new key appends a group at the end |
| BudgetChart.GroupRows | src/components/BudgetChart.tsx:19-32 | one group per distinct key, ordered by first appearance; each group's sums are the sums over its key's rows; the totals equal the totals over all rows |
| BudgetChart.AddRowKeepsSums | src/components/BudgetChart.tsx:21-29 | adding a row keeps every group's sums equal to the sums over its key's rows |
| BudgetChart.AddRowKeepsOrder | src/components/BudgetChart.tsx:24-29 | adding a row keeps the groups in order of the keys' first appearance |
| BudgetChart.AddRowKeepsTotals | src/components/BudgetChart.tsx:21-29 | adding a row keeps the group totals equal to the row totals |
| BudgetChart.CategoryRows | src/components/BudgetChart.tsx:19-32 | one row per item, keyed by category and carrying both amounts |
| BudgetChart.StatusRows | src/components/BudgetChart.tsx:35-46 | one row per item, keyed by status and carrying only the actual amount |
| BudgetChart.CategoryData | src/components/BudgetChart.tsx:19-32 | exactly one entry per category present, in first-appearance order, with per-category sums; estimated and actual totals equal those over the items |
| BudgetChart.Slices | src/components/BudgetChart.tsx:40-43 | one slice per status group, valued at its actual sum |
| BudgetChart.StatusData | src/components/BudgetChart.tsx:35-46 | exactly one slice per status present, valued at the sum of that status's actual amounts; estimates play no part; the values sum to the total actual |
| BudgetChart.ChartVariance | src/components/BudgetChart.tsx:91-92 | under budget iff estimated − actual ≥ 0, and the sign and magnitude shown give back the variance |
| BudgetChart.SliceColour | src/components/BudgetChart.tsx:178-179 | slice i takes colour i mod 10 of the palette |
| BudgetChart.SliceColoursCycle | src/components/BudgetChart.tsx:13 | colours repeat every ten slices and differ within any ten consecutive slices |
| BudgetItemView.VarianceOf | src/components/BudgetItem.tsx:19-25 | positive iff the estimate is at least the actual amount (equal counts as positive); the magnitude is the absolute difference |
| BudgetItemView.VarianceRoundTrip | src/components/BudgetItem.tsx:19-25 | sign and magnitude give back estimated − actual, and two items show the same variance iff their differences are equal |
| BudgetItemView.StatusColour | src/components/BudgetItem.tsx:29-40 | each of the three statuses has its colour class, and any other text gets "" |
| BudgetItemView.StatusColoursDistinct | src/components/BudgetItem.tsx:29-40 | the three statuses get distinct, non-empty classes, and the class is "" exactly for text that is not a status |
| EventForm.Defaults | src/components/EventForm.tsx:41-51 | a new form has an empty title, the opening moment as both dates, 09:00 to 17:00, "Not Started" and attendees "0" |
| EventForm.Prefill | src/components/EventForm.tsx:53-66 | the edit prefill copies the event's fields, with each date on the event's day at the time of day it was saved with; a missing description or location becomes ""; the attendee text parses back to the event's count |
| EventForm.Submit | src/components/EventForm.tsx:86-111 | an empty title is refused first, then a start later than the end; a form is submitted iff neither applies, with the attendees `parseInt`ed and the budget `{0, 0, []}` |
| EventForm.MidnightDatesCompareByDay | src/components/EventForm.tsx:94-97 | on midnight dates the date check refuses exactly a start day after the end day, so equal days are accepted |
| EventForm.SameDayRefused | src/components/EventForm.tsx:94-97 | a form opened at 10:30 whose end is then picked as the same day is refused |
| EventForm.EditSameDayRefused | src/components/EventForm.tsx:53-97 | editing a one-day event saved at 10:30 and picking its end day again is refused, where the corrected check accepts |
| EventForm.SubmitByDay | src/components/EventForm.tsx:94-97 | the corrected check accepts iff the title is non-empty and the start day is not after the end day, with the payload the original gives on midnight dates |
| EventForm.SubmitByDayExtends | src/components/EventForm.tsx:94-111 | where the original accepts, the corrected check accepts with the same payload |
| EventForm.EditRoundTrip | src/components/EventForm.tsx:53-111 | editing without changes, when the stored start moment is not after the stored end moment, submits the event's own fields, with a missing description or location as "", no place id and the empty budget |
| EventForm.EditDropsBudgetItems | src/components/EventForm.tsx:100-110 | saving an edit through `updateEvent` replaces the budget with the empty one and keeps id, tasks and progress |
| EventFormIndex.Defaults | src/components/EventForm/index.tsx:38-49 | as the other form's defaults, with the estimate reading "0" |
| EventFormIndex.Prefill | src/components/EventForm/index.tsx:51-66 | the prefill fails iff the event has no budget; otherwise it copies the fields, with the dates at the times of day they were saved with, and shows the budget's estimate |
| EventFormIndex.Submit | src/components/EventForm/index.tsx:85-111 | refuses exactly what the other form refuses, with the same messages; otherwise attendees are `parseInt(..) \|\| 0` and the budget is `{estimate or 0, 0, []}` |
| EventFormIndex.AttendeesAlwaysNumber | src/components/EventForm/index.tsx:107 | the attendee count sent is never NaN, and a typed number comes back unchanged |
| EventFormIndex.EditKeepsEstimateOnly | src/components/EventForm/index.tsx:99-110 | an unchanged edit sends back the estimate and drops the spending and items |
| TaskForm.Open | src/components/TaskForm.tsx:34-48 | with no task the form is blank with priority Medium; with one, the task's title, description ("" when missing) and priority |
| TaskForm.SelectPriority | src/components/TaskForm.tsx:57-59 | the select changes only the priority |
| TaskForm.Submit | src/components/TaskForm.tsx:61-70 | refused iff the title is empty, with "Task title is required"; otherwise exactly title, description and priority go out |
| TaskForm.EditRoundTrip | src/components/TaskForm.tsx:34-40 | an unchanged edit, merged back as a patch, gives the task with a missing description as "" |
| TaskForm.BlankRefused | src/components/TaskForm.tsx:64-67 | a freshly reset form cannot be submitted |
| BudgetForm.Open | src/components/BudgetForm.tsx:42-63 | with no item, the blank form; with one, its fields, and custom mode on iff its category is not among the ten suggestions (the custom text then being that category) |
| BudgetForm.SelectCategory | src/components/BudgetForm.tsx:90-93 | picking an entry sets the selected category; description, amounts, status, custom text and custom mode are unchanged |
| BudgetForm.TypeCustomCategory | src/components/BudgetForm.tsx:110-113 | typing a custom category keeps the text and turns custom mode on |
| BudgetForm.SelectExisting | src/components/BudgetForm.tsx:127-134 | "Select Existing" turns custom mode off and keeps both texts |
| BudgetForm.AmountOf | src/components/BudgetForm.tsx:158 | unparsable amount text becomes 0; parsable text gives its value |
| BudgetForm.AmountOfShown | src/components/BudgetForm.tsx:158 | an amount whose shown text reads back as itself keeps its value through the field |
| BudgetForm.FinalCategory | src/components/BudgetForm.tsx:67 | the custom text in custom mode, the selected category otherwise |
| BudgetForm.Submit | src/components/BudgetForm.tsx:65-76 | the payload has exactly the resolved category, the description, both amounts and the status, and no id |
| BudgetForm.CustomWithoutTyping | src/components/BudgetForm.tsx:101-116 | choosing "+ Custom Category" and submitting without typing sends the category "custom" |
| BudgetForm.EditRoundTrip | src/components/BudgetForm.tsx:42-76 | opening an item and submitting it unchanged gives the item back, whether its category is suggested or custom |
| BudgetForm.CustomModeOverridesSelect | src/components/BudgetForm.tsx:104-134 | in custom mode the typed text goes out whatever the category field holds; after "Select Existing", the entry picked (before or after it) goes out |
| Register.Submit | src/pages/Register.tsx:28-44 | a mismatch is reported first, then a password shorter than 6; `register` is called iff neither applies, with username, email and password only |
| Register.AfterSubmit | src/pages/Register.tsx:30-41 | each submit clears the old error and shows only the new one, if any |
| Register.MismatchReportedFirst | src/pages/Register.tsx:33-41 | a short, mismatched password reports the mismatch |
| Register.ConfirmationNotSent | src/pages/Register.tsx:44 | two forms that differ only in the confirmation text lead to the same call |
| Auth.Initial | src/context/AuthContext.tsx:27-33 | signed out, no user, loading, no error, and the stored token |
| Auth.LoadFinished | src/context/AuthContext.tsx:41-86 | the answer to a load is judged by the token captured when the load started and applied to the session current when it arrives: without a token only loading stops; with one, success signs the user in, and refusal or exception forgets the token in memory and storage; the error is never touched |
| Auth.LoadUser | src/context/AuthContext.tsx:41-86 | a load answered before anything else changed the session decides on the session's own token, with the same three outcomes |
| Auth.LoadAfterLogoutSignsIn | src/context/AuthContext.tsx:43-58 | a load started after a login and answered after a logout signs the user in with no token in memory or storage, breaking consistency |
| Auth.LoadFinishedFresh | src/context/AuthContext.tsx:41-86 | the corrected load acts as an undisturbed load when the token is still the one it started with, and leaves the session unchanged otherwise |
| Auth.LoadAfterLogoutDropped | src/context/AuthContext.tsx:43-58 | under the corrected load, that late answer leaves the session signed out and consistent |
| Auth.Authenticate | src/context/AuthContext.tsx:89-168 | success stores the token and signs in with no error; refusal changes only the error, to the server's message; an exception changes only the error, to "Server error" |
| Auth.Login | src/context/AuthContext.tsx:130-168 | logging in applies the shared handling of a success, a refusal or an exception |
| Auth.SignUp | src/context/AuthContext.tsx:89-127 | registering handles every answer exactly as logging in does |
| Auth.Logout | src/context/AuthContext.tsx:171-180 | token gone from memory and storage, signed out, no user; loading and error untouched |
| Auth.StepKeepsConsistent | src/context/AuthContext.tsx:41-180 | every transition, with loads answered under any started token by the corrected load, keeps "signed in ⇒ loaded with user and token" and keeps memory and storage agreeing on the token, given answers that carry token and user |
| Auth.RunKeepsConsistent | src/context/AuthContext.tsx:41-180 | any interleaving of such transitions keeps the session consistent |
| Auth.InitialConsistent | src/context/AuthContext.tsx:27-33 | the initial session is consistent |
| Auth.MissingTokenStoredAsText | src/context/AuthContext.tsx:143 | a success without a token leaves memory with no token but storage with the text "undefined" |
| Auth.LogoutThenLoad | src/context/AuthContext.tsx:171-178 | logging out and loading again leaves a signed-out, loaded session with the error kept |
| Numbers.ParseIntRoundTrip | src/components/EventForm.tsx:108 | `parseInt` of an integer's decimal text gives the integer back |
| Numbers.ParseNumRoundTrip | src/components/EventForm.tsx:64 | `parseInt(n.toString())` gives back any count, NaN included |
| Numbers.ParseIntStopsAtJunk | src/components/EventForm.tsx:108 | `parseInt` reads the leading digits, leading zeros included, and ignores what follows, unless the text starts "0x" or "0X" |
| Numbers.RoundedPercent | src/context/EventContext.tsx:175 | `Math.round(part / whole * 100)` is within half a unit of the exact percentage, and in 0..100 for a part of the whole |

## Left out

- Browser storage, JSON and the cross-tab `storage` listener. Storage is an explicit snapshot in the store's state, and `Persist` is the effect's write. JSON round-trips are taken as exact, which hides one case: `JSON.stringify` writes `NaN` as `null`, so after a reload, and always through `getEvent` (src/context/EventContext.tsx:162-167), a `NaN` attendee count comes back as `null`. The dashboard's sum then adds it as 0, and the edit prefill's `event.attendees.toString()` throws. The `NaN` cases of EventForm.EditRoundTrip and Numbers.ParseNumRoundTrip are therefore never reached by a stored event.
- `uuid` generation. Fresh ids are parameters, and the uniqueness lemmas require them to be unused.
- HTTP (`fetch`, headers, the API URL). Server answers are inputs to `Auth`. `loadUser` running again when the token changes is an explicit `Load` action.
- Toasts, React state batching, JSX, routing and the pages that only wire components together.
- The budget-item operations `addBudgetItem`, `updateBudgetItem` and `deleteBudgetItem`. The store type declares them but the provider does not implement them, so there is no behaviour to model. Roles and permissions are likewise not defined in the code and are not invented; only the role enumeration is modelled.
- The hard-coded credential check of the login page. It is a security defect, not behaviour worth proving.
- Google Calendar and Google Maps URL building and script loading. Only the choice of maps target is modelled.
- Floating point:
  - amounts are whole cents;
  - `parseFloat` and amount formatting (`toString`, `toFixed`, `toLocaleString`) are parameters;
  - `Math.round` of a float quotient is modelled as exact half-up rounding of the rational value.
- `Date` parsing, time zones and the in-place `setHours` of the day cell. Dates are day numbers, and a form's `Date` is a day number plus milliseconds since midnight. The calendar's `Today` takes one `today` date for both of the page's `new Date()` calls.
- `toLowerCase` is modelled for ASCII letters only, and lengths count characters, not UTF-16 code units.
- `parseInt` is modelled for decimal and `0x` text. Precision loss on very long digit strings and the exponent forms of `toString` for huge numbers are not modelled.
- EventForm.Prefill and EventFormIndex.Prefill: an `Event` keeps only the day of each date, so the time of day a stored date carries (midnight for a picked or plain date, the moment of opening for a date a new form submitted untouched) is a parameter, not part of the event.
- Dashboard.UpcomingEvents: the order among upcoming events with the same start day (the sort's tie order) is not stated.
- EventStore.SeedDates: the sample dates are literal day numbers, proved equal to the day numbers of the dates written in the sample data.
- Auth.RunKeepsConsistent: the invariant assumes that a success carries both a token and a user. `Auth.MissingTokenStoredAsText` shows what breaks without that. It is proved for the corrected load, which drops an answer to a request started under a token the session no longer holds; for the load as written, `Auth.LoadAfterLogoutSignsIn` shows the interleaving that breaks it.
- EventFormIndex.Submit: the payload's extra `estimatedBudget` text field, which the spread copies into the event, is not modelled.

## Findings

| source | as written | input that shows it | evidently intended | confidence | as-written member | corrected member |
|---|---|---|---|---|---|---|
| src/context/EventContext.tsx:162-241 | `calculateProgress` reads the event through `getEvent`, which reads the storage snapshot. The snapshot still holds the task list from before the change, so the progress written is stale, and with no tasks before the change nothing is written | on a stored event "e1" with no tasks: add T1, mark it done, add T2. Progress reads 0, 0, 100 | progress of the changed task list: 0, 100, 50 | not executed | EventStore.LaunchScenarioAsWritten | EventStore.LaunchScenarioFresh |
| src/pages/Calendar.tsx:69-96 | `setMonth(getMonth() ± 1)` keeps the day of the month, and a day the target month lacks runs on into the month after | shown date January 31, 2025, then "next": March 3, 2025 is shown and February is skipped | move exactly one month, clamping the day to the month's end | not executed | Calendar.NextSkipsFebruary | Calendar.ShiftMonthClamped |
| src/context/AuthContext.tsx:43-58 | `loadUser` decides on the token captured when the effect ran, then applies its answer to whatever state holds when the answer arrives | log in with token t, log out while `/auth/user` is in flight, and the answer is ok: the session is signed in with a user while the token is null in memory and storage | drop an answer whose token is no longer current, as an effect clean-up flag would | not executed | Auth.LoadAfterLogoutSignsIn | Auth.LoadFinishedFresh |
| src/components/EventForm.tsx:94-97 | `startDate > endDate` compares `Date` objects including the time of day. A fresh form holds "now", and a date picked in the calendar holds midnight | open the form at 10:30 and pick today as the end date: "End date cannot be before start date"; the edit path is affected too, since an event saved with untouched dates keeps 10:30 and is refused when its end day is picked again (EventForm.EditSameDayRefused) | compare calendar days, so a one-day event is accepted | not executed | EventForm.SameDayRefused | EventForm.SubmitByDay |

Notes on the findings:

- For the progress finding, `EventStore.TaskChangeProgressIsStale` states the stale write for every task operation, and `EventStore.RunTaskChangeFresh` proves that the corrected operations keep every event's progress consistent.
- `EventStore.SeedProgressDisagrees` shows that the sample data already breaks the progress rule. Consistency of progress is therefore not an invariant of the store as written.
- For the load finding, `Auth.LoadAfterLogoutDropped` shows the corrected load on the same input, and `Auth.RunKeepsConsistent` proves consistency for every interleaving under it. No page calls `logout`, so the input needs a caller outside the pages.
- For the month finding, `Calendar.ShiftMonthMovesByDeltaIff` states exactly when the original moves by one month.
