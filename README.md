# TimeSheet Pro: a verified model of the time-accounting core

TimeSheet Pro is a browser-only timesheet. A user logs one entry per calendar
day (start and end time, pause, location, or a vacation/holiday flag). The
home page turns each entry into worked hours and overtime, keeps the list
newest first and folds it into a monthly and a yearly summary. The entry form
validates what the user types. Every export or share of the current month
leaves a snapshot record in a download history, which a second page lists,
deletes from and clears.

This Dafny project models that core:

- `types.dfy` (module `Types`): the `TimeEntry` record, the overtime
  choice, and a calendar day as (year, month, day) with a day number that
  orders days the way the source's `getTime()` does.
- `clock.dfy` (module `Clock`): the form's time pattern and the reading of
  a two-digit `HH:MM` text as minutes after midnight.
- `timesheet.dfy` (module `Timesheet`): the hours calculator, the
  construction of a new entry, and the class `Home` with the list of entries
  and its two commands, `AddEntry` and `DeleteEntry`, plus the two summaries.
- `summaries.dfy` (module `Summaries`): the monthly and yearly `reduce`
  folds. Each fold is proved against a bucket-by-bucket reference.
- `entry_form.dfy` (module `EntryForm`): the validation schema, the reset
  after a submit, and the two halves of the location suggestion, in class
  `Form`.
- `timesheet_list.dfy` (module `TimesheetList`): the current month's
  entries, the history record an export appends, the order of effects of an
  export or share, and what a table row shows.
- `download_history.dfy` (module `DownloadHistory`): the history record, the
  saved list, and class `HistoryPage` with load, delete and clear.
- `seqs.dfy` and `sorting.dfy`: `filter`, sums, and the newest-first
  `sort` the source hands to `Array.prototype.sort`. The sort is an
  insertion sort that keeps equal keys in input order, as JavaScript's
  stable sort does.

Hours are whole minutes: `totalMinutes = max(0, shift − pause)` and
`overtimeMinutes = totalMinutes − 480`.

Notes on the code:

- `addEntry` checks for a missing user name before it checks for a day that already has an entry.
- `addEntry` appends the new entry and then sorts the whole list newest first.
- `TimeEntry` has no job field, and no summary filters by job. The only job
  is the constant `job1` in the history record.
- Vacation and holiday are two independent flags. Vacation is tested first
  everywhere.

The list invariant (`Timesheet.EntriesValid`) is:

- every entry is consistent;
- the list is strictly newest first by day, so no two entries share a
  calendar day.

`AddEntry` and `DeleteEntry` keep it. Under this invariant two entries never
tie on the date, so the start-time tie-break of the ordinary branch
(src/app/page.tsx:143) never decides anything. The model sorts by the date
alone.

## Model

| member | source | states |
|---|---|---|
| Types.DayNumberOrdersDays | src/app/page.tsx:102 | On valid dates the sort key orders days like the calendar, and two days share a key exactly when they are the same calendar day |
| Clock.ParseClock | src/app/page.tsx:127-128 | A time is read exactly when it is a five-character text that matches the form's pattern; the result lies within one day |
| Clock.ParseFormat | src/components/timesheet-form.tsx:136 | Reading the text of a time-of-day gives back that time |
| Clock.FormatParse | src/components/timesheet-form.tsx:136 | A readable text is the text of the time it reads as |
| Sorting.SortDesc | src/app/page.tsx:143 | The newest-first sort returns a permutation of its input, sorted by the key |
| Sorting.SortedFixpoint | src/app/history/page.tsx:36 | Sorting a list that is already newest first leaves it unchanged |
| Sorting.SortAppendFresh | src/app/page.tsx:123 | Appending an element with a new key to a strictly sorted list and sorting puts it in its place; the result stays strictly sorted |
| Sorting.InsertSplit | src/app/page.tsx:143 | Sorting places the new element at one position and leaves the rest in order |
| Summaries.TallyAppend | src/app/page.tsx:161-175 | The monthly fold over a concatenation is the sum of the folds over the parts |
| Summaries.TallyBuckets | src/app/page.tsx:156-175 | The monthly fold counts the vacation entries and the holiday-only entries, and sums hours, overtime and pause over the ordinary entries only; every entry is in exactly one bucket |
| Summaries.OvertimeAgainstNominalDay | src/app/page.tsx:134-135 | On consistent entries the month's overtime is its worked time minus eight hours per ordinary day, and the worked time is not negative |
| Summaries.YearTallyBuckets | src/app/page.tsx:188-198 | The yearly fold sums the overtime of non-vacation, non-holiday entries and counts vacation entries, agreeing with those two fields of the monthly fold |
| Summaries.YearlyWithCarryOver | src/app/page.tsx:183-203 | The yearly overtime is the year's ordinary overtime plus the carried-over overtime; the vacation days are the year's vacation entries plus the carried-over days |
| Timesheet.ShiftMinutes | src/app/page.tsx:127-132 | The raw duration is the unique value in [0, 24 h) that leads from the start to the end on a 24-hour clock, and it is end − start exactly when the end is not earlier |
| Timesheet.WorkedMinutes | src/app/page.tsx:134 | The worked time is at least zero and at least the shift less the pause, and it is one of the two |
| Timesheet.NewEntry | src/app/page.tsx:112-142 | The built entry keeps the id, date and flags; a vacation or holiday is zeroed and gets the vacation label or else the holiday label; an ordinary entry keeps its times, pause and location; every built entry is consistent |
| Timesheet.OrdinaryEntryHours | src/app/page.tsx:127-135 | An ordinary entry's total plus pause leads from start to end past midnight if needed; it is zero when the pause covers the shift; for a non-negative pause it never exceeds the shift; overtime is total − 8 h |
| Timesheet.OvernightShiftExample | src/app/page.tsx:127-133 | 23:00 to 06:00 counts 7 hours |
| Timesheet.NominalDayExample | src/app/page.tsx:127-135 | 07:00 to 16:00 with a 60-minute pause counts 8 hours and no overtime |
| Timesheet.StrictMeansDistinctDays | src/app/page.tsx:102-110 | A strictly newest-first list has no two entries on the same day, and a sorted list with one entry per day is strictly newest first |
| Timesheet.AddedEntryStore | src/app/page.tsx:137-143 | Adding an entry on a new day keeps the invariant, grows the list by exactly one, keeps every old entry (as a multiset) and places the new one by insertion |
| Timesheet.DeletedEntryStore | src/app/page.tsx:146-148 | Deleting keeps the invariant, removes exactly the entries with that id, leaves the list unchanged for an unknown id, and is idempotent |
| Timesheet.AddThenDelete | src/app/page.tsx:137-148 | Deleting the entry just added under a fresh id restores the list as it was |
| Timesheet.AddedEntrySummary | src/app/page.tsx:156-175 | After an add, the month's summary is the old summary plus the new entry's own contribution |
| Timesheet.AddedVacationCountsOneDay | src/app/page.tsx:163-164 | Adding a vacation day raises that month's vacation count by one and changes no other figure |
| Timesheet.Home.constructor | src/app/page.tsx:29-34 | The page starts with no entries, no user name, overtime kept, and zero carry-over |
| Timesheet.Home.AddEntry | src/app/page.tsx:93-144 | Rejected exactly when the name is empty, or else when the day already has an entry, and then nothing changes; otherwise the list becomes the sorted old list plus the new entry, one longer, with the invariant kept and the other fields untouched |
| Timesheet.Home.DeleteEntry | src/app/page.tsx:146-148 | The list becomes the old list without that id, with the invariant kept and the other fields untouched |
| Timesheet.Home.MonthlySummaryFor | src/app/page.tsx:150-176 | The month's summary equals the bucket reference over the month's entries, and its day counts plus the ordinary count equal the number of the month's entries |
| Timesheet.Home.YearlySummaryFor | src/app/page.tsx:178-204 | The year's overtime is the ordinary overtime sum plus carry-over, and the vacation days are the vacation count plus carry-over |
| EntryForm.ToInput | src/components/timesheet-form.tsx:76-77 | The form hands the page an entry that is neither vacation nor holiday, with its date, start and end times, pause and location |
| EntryForm.AcceptedFormIsSameDayShift | src/components/timesheet-form.tsx:19-32 | A form the schema accepts has a date, readable times with the end strictly later, a non-negative pause and a location, so the overnight branch is never taken and the worked time fits between the two times |
| EntryForm.ResetFormRejected | src/components/timesheet-form.tsx:82-86 | The form as reset after a submit fails on the end time (start equals end) and on the empty location |
| EntryForm.DefaultsNeedLocation | src/components/timesheet-form.tsx:46-52 | The default values fail only the location rule |
| EntryForm.TimePatternExamples | src/components/timesheet-form.tsx:21-22 | "23:59" and "9:05" match the time pattern; "24:00" and "12:60" do not |
| EntryForm.FormattedTimeMatches | src/components/timesheet-form.tsx:21-22 | Every time of day, written as `HH:MM`, matches the pattern |
| EntryForm.Form.constructor | src/components/timesheet-form.tsx:42-53 | The form starts with the defaults and no suggestion running |
| EntryForm.Form.Submit | src/components/timesheet-form.tsx:76-87 | An invalid form changes nothing. A valid one goes to the page's add, with its rejections as the page states them; the page's name, overtime choice and carry-overs stay as they were. The form is then reset to start at the old end with no location, whether the add succeeded or not |
| EntryForm.Form.BeginSuggestion | src/components/timesheet-form.tsx:55-57 | The suggestion starts, the form is unchanged, and the start time is the question asked |
| EntryForm.Form.FinishSuggestion | src/components/timesheet-form.tsx:58-73 | A success with a location sets the location; anything else leaves the form unchanged and reports the error or the default message; the suggestion is over either way |
| DownloadHistory.DeletedRecords | src/app/history/page.tsx:40-41 | Deleting removes exactly the records with that id, keeps newest-first order, changes nothing for an unknown id and is idempotent |
| DownloadHistory.LoadKeepsSortedList | src/app/history/page.tsx:36 | A saved list already newest first is shown as saved |
| DownloadHistory.HistoryPage.constructor | src/app/history/page.tsx:25 | The page starts empty |
| DownloadHistory.HistoryPage.Load | src/app/history/page.tsx:28-38 | A saved list is shown as a newest-first permutation of itself; with none the page stays as it was |
| DownloadHistory.HistoryPage.DeleteHistoryEntry | src/app/history/page.tsx:40-44 | The shown list loses exactly that id, stays newest first, and the same list is saved |
| DownloadHistory.HistoryPage.ClearHistory | src/app/history/page.tsx:46-49 | The shown list is empty and the saved key is removed |
| TimesheetList.CurrentEntriesKeepOrder | src/components/timesheet-list.tsx:59-64 | The current month's entries are exactly the entries of that month and year, in list order, and a newest-first list stays newest first |
| TimesheetList.ActionsEnabledIffEntryThisMonth | src/components/timesheet-list.tsx:109-125 | Export and share are enabled exactly when some entry lies in the current month |
| TimesheetList.AddDownloadToHistory | src/components/timesheet-list.tsx:66-80 | The saved history becomes the old one with exactly one record appended at the end |
| TimesheetList.HandleAction | src/components/timesheet-list.tsx:82-92 | The record is saved first, even without a generator; the export or share follows only when the generator is mounted, and matches the action |
| TimesheetList.RecordedSnapshot | src/components/timesheet-list.tsx:67-79 | After an export the history is one longer, its old prefix unchanged, and the new record carries the current month's entries, the user name, the month label, the summary, the overtime choice and job `job1` |
| TimesheetList.Row | src/components/timesheet-list.tsx:165 | A row shows its entry's date |
| TimesheetList.RowDisplay | src/components/timesheet-list.tsx:157-171 | Vacation and holiday rows show dashes and the vacation label, or else the holiday label; other rows show the stored fields |
| TimesheetList.RowShowsStoredLocation | src/components/timesheet-list.tsx:157-161 | An ordinary row shows the location stored with the entry; a vacation or holiday row shows the label of the language in use when it is shown, which equals the stored location exactly when that label is the same as in the language used when the entry was added (src/app/page.tsx:119) |
| TimesheetList.LanguageSwitchRelabelsRow | src/components/timesheet-list.tsx:157-159 | A vacation day stored as "Urlaub" is shown as "Vacation" once the language is English |

## Left out

- Persistence of the entries and settings: the reads and writes of local storage, JSON encoding, and `parseFloat(...) || 0` for carry-overs (src/app/page.tsx:40-91). Entries read back from storage are not checked against the list invariant.
- The saved download history is modelled as an optional list (`HistoryStorage.saved`). JSON encoding, and the round trip of `Date` values through text, are not modelled.
- PDF export and sharing (src/components/pdf-generator.tsx): foreign libraries and browser APIs. `HandleAction` only records that they are called.
- The generative location suggester and its server action. Its answer is an arbitrary `SuggestionResult` input; an absent field is the empty string.
- Translations, layout, ads, colours and `toFixed(2)` formatting. Labels are a parameter; overtime cells hold minutes.
- The `isClient` guard that yields all-zero summaries before the first render (src/app/page.tsx:151, 179).
- The `|| 0` fallbacks for missing numbers in the folds, and the `typeof` guard on overtime in a row. Model numbers are always present integers.
- Floating-point hours and fractional pauses; hours are whole minutes.
- Fractional carry-over vacation days: the yearly dialog reads them with `parseFloat` (src/app/page.tsx:237), so half a day is accepted there, but `carryOverVacationDays` is an integer here. Carried-over overtime is in whole minutes for the same reason (line 247).
- Local-time `Date` handling. A date is an abstract (year, month, day) and the current moment is a parameter (`TimesheetList.Moment`, and the month and year given to the summaries).
- Fresh ids from the clock and `Math.random`. They are parameters; uniqueness is not guaranteed by the code and is not assumed.
- One-digit hours such as `9:05`: they match the pattern, but reading them as an instant depends on the JavaScript engine. The model reads only `HH:MM`, so such a time fails the end-after-start rule.
- A pause that is not a number: its coercion failure aborts the form schema; pauses are integers here.
- Timesheet.NewEntry: requires both times of an ordinary entry to be readable. With an unreadable time the code would store NaN hours; the form's schema never lets such a time through.
- Timesheet.Home.AddEntry: requires a readable ordinary entry for the same reason, and a valid calendar day, which every JavaScript date is.
- Sorting.SortDesc: the start-time tie-break of the ordinary branch is not modelled. Under the list invariant no two entries share a date, so it never decides the order.
- The empty-list card (src/components/timesheet-list.tsx:95-107) and the browser test for a share button (line 124): pure rendering. `ActionsEnabled` models the disabled state of both buttons.
- The per-row colour, including the `job` lookup on entries that have no job (src/components/timesheet-list.tsx:148-155).
