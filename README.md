# Time tracker: entry lifecycle and daily summary

A model of the time-tracking page of a small employee time-tracker web
front end (`src/pages/TimeTracker.jsx`). An employee presses one button to
clock in (Time In) and again to clock out (Time Out); each press writes a row
of the `time_logs` table held by a hosted database service, and the page
re-reads the user's rows afterwards. From those rows the page derives
whether the user is Logged In and which row is the open one, computes the
hours of a session when it is closed, and shows a table with one line per
date: the first Time-In, the last Time-Out and the total hours.

The model has three layers:

- pure functions for what the page computes from values: parsing
  `HH:MM:SS` times, the rounded duration of a session
  (`time_of_day.dfy`), JavaScript's `find`, `filter` and `Set`
  de-duplication (`sequences.dfy`), the row type (`entries.dfy`) and the
  per-date summary and greeting name (`projections.dfy`);
- the lifecycle as transitions on a value holding the component's state
  and the store's rows (`lifecycle.dfy`), with the lemmas about it: status
  derivation, Time-In, Time-Out, the button, and the theorem that,
  starting from a store with unique ids and at most one open row for the
  user, and once the page's first fetch has answered, the user never has
  two open rows as long as every press is followed by a fetch that
  answers;
- the component and the store as classes whose fields the handlers update
  in place (`tracker.dfy`); every method's `ensures` ties the new state to
  the lifecycle function of the old one.

Conventions of the model:

- A time of day is a number of seconds since midnight; worked time is a
  whole number of hundredths of an hour (`Hours.Hundredths`), or `NaN` when
  a time string does not parse (`toFixed` of `NaN` is the string `"NaN"`).
- Rounding follows `Number.prototype.toFixed(2)`: the sign is taken off,
  the nearest hundredth is chosen and a tie goes to the larger magnitude;
  on whole seconds that is `(|d| + 18) / 36` hundredths with the sign of `d`.
- A text field (`clock_in`, `clock_out`) counts as present when it is
  neither `null` nor empty, as JavaScript truthiness has it; `hours` counts
  as present when it is not `null`.
- The store's answers are inputs: `ok` says whether an insert or update was
  accepted, and the answer of the listing query is an `Option` (`None` when
  it returns no data). The clock readings (date and time strings) are inputs.
- Each handler is one atomic step. The re-read each handler starts without
  waiting for it is the separate step `FetchLogs`; the handler's own
  `setStatus` comes first, the fetch's state updates after it.

Behaviour of the code worth noting:

- the duration is computed from seconds (`HH:MM:SS`);
- hours can be negative: a session that crosses midnight gives a negative
  value (`TimeOfDay.DurationSign`);
- the first Time-In and last Time-Out of a date are the first and last in
  list order, not the earliest and latest times;
- the only guard against a second open row is the button, which offers
  Time In whenever the status is Logged Out, including before the first
  fetch has answered (`Lifecycle.TimeInBeforeFirstFetchDuplicatesOpenRow`);
- a fetch with no open row keeps the previous active log, so after a fetch
  that fails, Time-Out can update an already closed row again
  (`Lifecycle.StaleActiveLogClosesOldRowAgain`).

## Model

| member | source | states |
|---|---|---|
| `TimeOfDay.ParseTime` | src/pages/TimeTracker.jsx:62-63 | only a text of 5 or 8 characters with a colon after the hours (and after the minutes when 8 long), two-digit hours up to 24, two-digit minutes and seconds below 60, parses; its value lies between 0 and 86400 seconds |
| `TimeOfDay.TimeString` | src/pages/TimeTracker.jsx:44 | the `HH:MM:SS` form of a clock reading has eight characters with colons at positions 2 and 5 |
| `TimeOfDay.ParseTimeString` | src/pages/TimeTracker.jsx:61-63 | reading back a time the tracker wrote gives the same time of day |
| `TimeOfDay.ParseShortTimeString` | src/pages/TimeTracker.jsx:62-63 | the `HH:MM` form of a clock reading parses to the start of its minute |
| `TimeOfDay.TimeStringOfParse` | src/pages/TimeTracker.jsx:61-63 | an eight-character time that parses is exactly the string written for its value (canonical form) |
| `TimeOfDay.RoundToHundredths` | src/pages/TimeTracker.jsx:64 | the result is the nearest hundredth of an hour to the seconds given, ties to the larger magnitude |
| `TimeOfDay.RoundingIsUnique` | src/pages/TimeTracker.jsx:64 | the rounding rule admits only one result |
| `TimeOfDay.Duration` | src/pages/TimeTracker.jsx:61-64 | the hours are a number exactly when both times parse, and then the rounded difference end minus start; otherwise NaN |
| `TimeOfDay.DurationSign` | src/pages/TimeTracker.jsx:61-64 | hours are negative exactly when the end is 18 or more seconds before the start, and never negative when the end is not earlier |
| `TimeOfDay.DurationOfEqualTimes` | src/pages/TimeTracker.jsx:61-64 | equal start and end give 0.00 |
| `TimeOfDay.DurationExamples` | src/pages/TimeTracker.jsx:61-64 | 09:00:00 to 17:30:00 gives 8.50; 09:00 to 09:00 gives 0.00; 23:00 to 01:00 gives -22.00; a missing Time-In gives NaN |
| `Sequences.Find` | src/pages/TimeTracker.jsx:27 | `find` returns the first position that satisfies the test, or the length when none does |
| `Sequences.Filter` | src/pages/TimeTracker.jsx:88 | `filter` keeps only elements that pass, is no longer than its input, and is empty when nothing passes |
| `Sequences.FilterMembers` | src/pages/TimeTracker.jsx:94 | an element is kept exactly when it occurs in the input and passes the test |
| `Sequences.FilterAppend` | src/pages/TimeTracker.jsx:94 | filtering a concatenation is the concatenation of the filtered parts |
| `Sequences.FilterLast` | src/pages/TimeTracker.jsx:88-89 | the last kept element is the last element of the input that passes |
| `Sequences.IndexOf` | src/pages/TimeTracker.jsx:99 | the position of the first occurrence of a value |
| `Sequences.Dedup` | src/pages/TimeTracker.jsx:99 | the Set's elements are exactly the input's values, each once |
| `Sequences.DedupFirstOccurrenceOrder` | src/pages/TimeTracker.jsx:99 | the Set's elements stand in order of first occurrence in the input |
| `Projections.FirstTimeIn` | src/pages/TimeTracker.jsx:82-85 | the Time-In of the first row in list order with the date and a non-empty Time-In; a dash when there is none |
| `Projections.LastTimeOut` | src/pages/TimeTracker.jsx:87-90 | the result is a dash or the Time-Out of some row with the date and a non-empty Time-Out |
| `Projections.LastTimeOutIsLastMatch` | src/pages/TimeTracker.jsx:87-90 | the Time-Out of the last row in list order with the date and a non-empty Time-Out; a dash when there is none |
| `Projections.Add` | src/pages/TimeTracker.jsx:95 | `+` on hours: a number exactly when both operands are, and then their sum; NaN otherwise |
| `Projections.HoursValue` | src/pages/TimeTracker.jsx:95 | `parseFloat` of a stored hours value: a number only for a stored number, and then that number; NaN when absent or not a number |
| `Projections.Sum` | src/pages/TimeTracker.jsx:95 | the `reduce` over no rows is 0; it is NaN exactly when some summand is NaN or absent |
| `Projections.SumAppend` | src/pages/TimeTracker.jsx:95 | the running sum over a concatenation adds the sums of the parts |
| `Projections.TotalHours` | src/pages/TimeTracker.jsx:92-97 | a date without hours totals 0.00 |
| `Projections.TotalHoursOfOneRow` | src/pages/TimeTracker.jsx:92-97 | a single row with hours totals its hours |
| `Projections.TotalHoursAppend` | src/pages/TimeTracker.jsx:92-97 | the total over two lists together is the sum of their totals |
| `Projections.TotalHoursIgnoresOtherDates` | src/pages/TimeTracker.jsx:92-97 | a row of another date, anywhere in the list, does not change a date's total |
| `Projections.TotalHoursIsNaN` | src/pages/TimeTracker.jsx:92-97 | the total is NaN exactly when some row of the date holds NaN hours |
| `Projections.Dates` | src/pages/TimeTracker.jsx:99 | `entries.map((e) => e.date)`: one date per entry, position by position |
| `Projections.UniqueDates` | src/pages/TimeTracker.jsx:99 | the listed dates are exactly those of the entries, each once |
| `Projections.UniqueDatesInFirstOccurrenceOrder` | src/pages/TimeTracker.jsx:99 | the listed dates are in order of their first occurrence among the entries |
| `Projections.FirstName` | src/pages/TimeTracker.jsx:100 | the greeting name is the prefix of the email before the first `@` (the whole email when there is none) |
| `Projections.TwoSessionsTotal` | src/pages/TimeTracker.jsx:92-97 | two 4.00-hour sessions on one date total 8.00 |
| `Projections.TwoSessionsFirstAndLast` | src/pages/TimeTracker.jsx:82-90 | for sessions 08:00-12:00 and 13:00-17:00 the first Time-In is 08:00 and the last Time-Out 17:00 |
| `Projections.TwoSessionsDates` | src/pages/TimeTracker.jsx:99 | two rows of one date give one line in the summary |
| `Lifecycle.Initial` | src/pages/TimeTracker.jsx:5-8 | the component starts with no entries, Logged Out, no active log and no total |
| `Lifecycle.FirstOpen` | src/pages/TimeTracker.jsx:27 | the open row found is the first row without a Time-Out; none exactly when every row has one |
| `Lifecycle.Fetched` | src/pages/TimeTracker.jsx:25-34 | no data changes nothing; otherwise entries are replaced, status is Logged In iff some row is open, the active log becomes the first open row and is kept, not cleared, when none is open |
| `Lifecycle.FetchedIsIdempotent` | src/pages/TimeTracker.jsx:25-34 | deriving the status twice from the same answer gives the same state as once |
| `Lifecycle.FetchedSyncs` | src/pages/TimeTracker.jsx:25-34 | after a fetch that answers with the user's rows, the state is in step with the store |
| `Lifecycle.TimedIn` | src/pages/TimeTracker.jsx:46-57 | on success the store gains exactly one row, open, with the date, Time-In, user and a fresh id, earlier rows unchanged, and the status is Logged In; on error nothing changes |
| `Lifecycle.ClosedById` | src/pages/TimeTracker.jsx:66-69 | the update keeps every row's id, user, date and Time-In, sets Time-Out and hours on the rows with the id and leaves every other row as it was |
| `Lifecycle.ClosedByIdChangesOneRow` | src/pages/TimeTracker.jsx:66-69 | with unique ids the update sets Time-Out and hours together on exactly the row with the id; every other row is unchanged |
| `Lifecycle.ClosedByIdOfMissingId` | src/pages/TimeTracker.jsx:66-69 | an update for an id no row has changes nothing |
| `Lifecycle.TimedOut` | src/pages/TimeTracker.jsx:60-76 | with no active log nothing changes; on success the active row's id gets the Time-Out and the computed hours, the total becomes those hours and the status Logged Out; on error nothing changes |
| `Lifecycle.Pressed` | src/pages/TimeTracker.jsx:113-127 | the button adds no row while Logged In and touches no existing row while Logged Out |
| `Lifecycle.PressKeepsPaired` | src/pages/TimeTracker.jsx:46-69 | every row keeps having both a Time-Out and hours, or neither |
| `Lifecycle.PressKeepsStoreValid` | src/pages/TimeTracker.jsx:46-69 | ids stay unique and below the next id |
| `Lifecycle.TimeInKeepsOneOpen` | src/pages/TimeTracker.jsx:46-57 | Time-In from a state in step with the store and Logged Out leaves at most one open row for the user |
| `Lifecycle.TimeOutKeepsOneOpen` | src/pages/TimeTracker.jsx:60-76 | Time-Out from a state in step with the store leaves at most one open row for the user |
| `Lifecycle.PressThenFetchKeepsOneOpen` | src/pages/TimeTracker.jsx:18-76 | a press followed by a fetch that answers keeps unique ids, at most one open row for the user, and the state in step with the store |
| `Lifecycle.TimeInThenTimeOut` | src/pages/TimeTracker.jsx:41-76 | Time-In then Time-Out, both accepted and each followed by a fetch that answers, add exactly one row, with the Time-Out and the hours between the two readings, and show those hours; the page ends Logged Out exactly when the Time-Out reading is non-empty |
| `Lifecycle.TimeInBeforeFirstFetchDuplicatesOpenRow` | src/pages/TimeTracker.jsx:113-119 | before the first fetch answers, Time In is offered and creates a second open row |
| `Lifecycle.StaleActiveLogClosesOldRowAgain` | src/pages/TimeTracker.jsx:25-76 | from a fresh page over one open row: fetch, Time-Out, fetch, Time-In and a failed fetch leave the first row's earlier open copy as the active log, and Time-Out then rewrites the first row, already closed, and leaves the new row open |
| `Tracker.EntryStore.constructor` | src/pages/TimeTracker.jsx:19-23 | an empty table |
| `Tracker.EntryStore.Insert` | src/pages/TimeTracker.jsx:46-52 | an accepted insert appends an open row with the next id; a rejected one changes nothing |
| `Tracker.EntryStore.UpdateById` | src/pages/TimeTracker.jsx:66-69 | an accepted update sets Time-Out and hours on the rows with the id; a rejected one changes nothing |
| `Tracker.TimeTracker.constructor` | src/pages/TimeTracker.jsx:5-8 | the new component is in the initial state over the given store |
| `Tracker.TimeTracker.Greeting` | src/pages/TimeTracker.jsx:100 | the welcome name is the prefix of the user's email before its first `@` |
| `Tracker.TimeTracker.FetchLogs` | src/pages/TimeTracker.jsx:18-35 | the new state is `Fetched` of the old state and the answer |
| `Tracker.TimeTracker.TimeIn` | src/pages/TimeTracker.jsx:41-58 | the new state of component and store is `TimedIn` of the old |
| `Tracker.TimeTracker.TimeOut` | src/pages/TimeTracker.jsx:60-76 | the new state of component and store is `TimedOut` of the old |
| `Tracker.TimeTracker.Press` | src/pages/TimeTracker.jsx:113-127 | the new state of component and store is `Pressed` of the old |

## Left out

- The database service itself: sign-in, sessions, row-level access and the
  network. Its answers (accepted or not, the rows a query returns) are
  inputs; `src/pages/Login.jsx` and `src/App.jsx` only forward the
  service's authentication results and are not part of this model.
- The order of the listing query (by date, descending) is the service's;
  `FetchLogs` takes the answer as given, and the invariant lemmas hold for
  an answer in any order.
- Rendering, styling, the one-second clock tick and its display
  (`formatTime`), and the long date format of each summary line.
- The conversion of the current `Date` into strings (`toISOString` gives a
  UTC date, `toTimeString` a local time): the date and time strings are
  inputs. Daylight-saving offsets between two parsed times are not modelled.
- Asynchronous interleavings: a fetch answering while a handler is still
  waiting for the store, or two browser sessions of one user writing at
  once.
- The `TypeError` Time-Out throws when there is no active log is modelled
  as a step that changes nothing; the rejected promise is not.
- `TimeOfDay.ParseTime`: accepts only the `HH:MM` and `HH:MM:SS` forms;
  fractional seconds and the forms a JavaScript engine's fallback parser
  may accept are not modelled.
- `TimeOfDay.RoundToHundredths`: decides ties on the exact quotient; the
  source decides them on the nearest binary double, which can round a tie
  down. A result that rounds to zero from below renders as `-0.00` in the
  source; here it is 0.
- `Projections.TotalHours`: adds exact hundredths; the source adds binary
  floating-point values parsed from the stored strings before rounding to
  two decimals.
- `Projections.HasHours`: treats stored hours as text, so `0.00` is
  kept; if the column held numbers, rows with 0 would be skipped, which
  does not change a total.
