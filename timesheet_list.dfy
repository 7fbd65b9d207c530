/** The entry list: the current month's entries, the export and share
    actions that first record a history entry, and what each table row
    shows. */
module TimesheetList {
  import opened Types
  import opened Seqs
  import opened Sorting
  import opened Summaries
  import opened Timesheet
  import opened DownloadHistory

  /** What the list receives from the page. */
  datatype ListProps = ListProps(
    entries: seq<TimeEntry>,
    userName: string,
    overtimeOption: OvertimeOption,
    monthlySummary: MonthlySummary)

  /** The current moment as the list reads it: month and year, the instant
      in milliseconds, its ISO text (used as the record id) and the
      formatted month label. */
  datatype Moment = Moment(month: int, year: int, millis: int, iso: string, monthName: string)

  function CurrentEntries(props: ListProps, now: Moment): seq<TimeEntry>
  {
    MonthlyEntries(props.entries, now.month, now.year)
  }

  /** The current month's entries are exactly those of that month and year,
      in list order: the filter distributes over any split of the list, so
      it keeps the newest-first order too. */
  lemma CurrentEntriesKeepOrder(a: seq<TimeEntry>, b: seq<TimeEntry>, month: int, year: int)
    ensures forall e :: e in MonthlyEntries(a, month, year) <==> e in a && e.date.month == month && e.date.year == year
    ensures MonthlyEntries(a + b, month, year) == MonthlyEntries(a, month, year) + MonthlyEntries(b, month, year)
    ensures SortedDesc(a, EntryKey) ==> SortedDesc(MonthlyEntries(a, month, year), EntryKey)
  {
    FilterAppend(a, b, InMonthTest(month, year));
    if SortedDesc(a, EntryKey) {
      FilterSorted(a, InMonthTest(month, year), EntryKey);
    }
  }

  /** Export and share are enabled when the current month has an entry. */
  predicate ActionsEnabled(props: ListProps, now: Moment)
  {
    |CurrentEntries(props, now)| > 0
  }

  lemma ActionsEnabledIffEntryThisMonth(props: ListProps, now: Moment)
    ensures ActionsEnabled(props, now) <==> exists e :: e in props.entries && InMonth(e, now.month, now.year)
  {
    var m := CurrentEntries(props, now);
    if |m| > 0 {
      assert m[0] in m;
    }
  }

  /** The record one export or share adds to the history. */
  function DownloadRecord(props: ListProps, now: Moment): HistoryRecord
  {
    HistoryRecord(now.iso, props.userName, now.monthName, now.millis,
                  CurrentEntries(props, now), props.monthlySummary, props.overtimeOption, "job1")
  }

  /** Appends the record of this export to the saved history; earlier
      records stay as they were. */
  method AddDownloadToHistory(props: ListProps, storage: HistoryStorage, now: Moment)
    modifies storage
    ensures storage.saved == Some(old(storage.Stored()) + [DownloadRecord(props, now)])
  {
    var history := storage.Stored();
    history := history + [DownloadRecord(props, now)];
    storage.saved := Some(history);
  }

  datatype Action = Export | Share

  /** What an action causes, in order. */
  datatype Effect = Recorded(record: HistoryRecord) | ExportPdf | SharePdf

  /** An action records the export first, then asks the PDF generator to
      export or share, if the generator is mounted. */
  method HandleAction(props: ListProps, storage: HistoryStorage, action: Action, generatorReady: bool, now: Moment)
    returns (effects: seq<Effect>)
    modifies storage
    ensures storage.saved == Some(old(storage.Stored()) + [DownloadRecord(props, now)])
    ensures |effects| == if generatorReady then 2 else 1
    ensures effects[0] == Recorded(DownloadRecord(props, now))
    ensures generatorReady ==> effects[1] == if action == Export then ExportPdf else SharePdf
  {
    AddDownloadToHistory(props, storage, now);
    effects := [Recorded(DownloadRecord(props, now))];
    if generatorReady {
      if action == Export {
        effects := effects + [ExportPdf];
      } else {
        effects := effects + [SharePdf];
      }
    }
  }

  /** The history after an action holds exactly one record more, at the end,
      carrying the current month's entries, the user, the month label, the
      summary, the overtime choice and the job `job1`. */
  lemma RecordedSnapshot(props: ListProps, now: Moment, before: seq<HistoryRecord>)
    ensures var after := before + [DownloadRecord(props, now)];
            && |after| == |before| + 1
            && after[..|before|] == before
            && after[|before|].entries == MonthlyEntries(props.entries, now.month, now.year)
            && after[|before|].userName == props.userName
            && after[|before|].monthName == now.monthName
            && after[|before|].overtimeOption == props.overtimeOption
            && after[|before|].monthlySummary == props.monthlySummary
            && after[|before|].job == "job1"
  {
    var after := before + [DownloadRecord(props, now)];
    assert after[..|before|] == before;
  }

  /** A table cell: a dash, or a value. */
  datatype Cell = Dash | Text(text: string) | Minutes(minutes: int)

  datatype RowView = RowView(date: Date, start: Cell, end: Cell, pause: Cell, location: string, overtime: Cell)

  /** The row of one entry. */
  function Row(e: TimeEntry, labels: Labels): (r: RowView)
    ensures r.date == e.date
  {
    var special := e.isVacation || e.isHoliday;
    RowView(
      e.date,
      if special then Dash else Text(e.startTime),
      if special then Dash else Text(e.endTime),
      if special then Dash else Minutes(e.pause),
      if e.isVacation then labels.vacation else if e.isHoliday then labels.holiday else e.location,
      if special then Dash else Minutes(e.overtimeMinutes))
  }

  /** A vacation or holiday row shows dashes and its label, vacation first;
      any other row shows the stored fields. */
  lemma RowDisplay(e: TimeEntry, labels: Labels)
    ensures IsSpecial(e) <==> Row(e, labels).start == Dash
    ensures IsSpecial(e) ==>
              Row(e, labels).end == Dash && Row(e, labels).pause == Dash && Row(e, labels).overtime == Dash
    ensures e.isVacation ==> Row(e, labels).location == labels.vacation
    ensures !e.isVacation && e.isHoliday ==> Row(e, labels).location == labels.holiday
    ensures !IsSpecial(e) ==>
              Row(e, labels) == RowView(e.date, Text(e.startTime), Text(e.endTime), Minutes(e.pause),
                                        e.location, Minutes(e.overtimeMinutes))
  {
  }

  /** The location cell of an entry the page built. The page stores the
      label of the language in use when the entry is added; the row reads the
      label of the language in use when it is shown, and the language can
      change in between. An ordinary row shows the stored location; a
      vacation or holiday row shows the current label, which agrees with the
      stored one exactly when the two languages agree on that label. */
  lemma RowShowsStoredLocation(input: EntryInput, id: string, addLabels: Labels, viewLabels: Labels)
    requires Readable(input)
    ensures !input.isVacation && !input.isHoliday ==>
              Row(NewEntry(input, id, addLabels), viewLabels).location == NewEntry(input, id, addLabels).location
    ensures input.isVacation ==> Row(NewEntry(input, id, addLabels), viewLabels).location == viewLabels.vacation
    ensures !input.isVacation && input.isHoliday ==>
              Row(NewEntry(input, id, addLabels), viewLabels).location == viewLabels.holiday
    ensures (input.isVacation || input.isHoliday) ==>
              (Row(NewEntry(input, id, addLabels), viewLabels).location == NewEntry(input, id, addLabels).location
               <==> if input.isVacation then viewLabels.vacation == addLabels.vacation
                    else viewLabels.holiday == addLabels.holiday)
  {
  }

  /** A vacation day added in one language and shown in another shows the
      other language's label, not the one stored with the entry. */
  lemma LanguageSwitchRelabelsRow(id: string)
    ensures var input := EntryInput(Date(2024, 5, 6), "", "", 0, "", true, false);
            var stored := NewEntry(input, id, Labels("Urlaub", "Feiertag"));
            && stored.location == "Urlaub"
            && Row(stored, Labels("Vacation", "Holiday")).location == "Vacation"
  {
  }
}
