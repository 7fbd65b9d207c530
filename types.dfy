/** The records of the timesheet: a logged day (`TimeEntry`) and the
    overtime disposition (`OvertimeOption`). Hours are kept as whole minutes
    and a date as the calendar day that `toDateString` compares. */
module Types {

  datatype Option<T> = None | Some(value: T)

  /** A calendar day: month 1..12, day 1..31. */
  datatype Date = Date(year: int, month: int, day: int)

  predicate ValidDate(d: Date)
  {
    1 <= d.month <= 12 && 1 <= d.day <= 31
  }

  /** Calendar order: earlier year, then earlier month, then earlier day. */
  predicate EarlierDay(a: Date, b: Date)
  {
    a.year < b.year
    || (a.year == b.year && a.month < b.month)
    || (a.year == b.year && a.month == b.month && a.day < b.day)
  }

  /** A number per day that grows with the calendar; the key entries are
      sorted by (the model's stand-in for `getTime()` of the entry's date). */
  function DayNumber(d: Date): int
  {
    d.year * 372 + (d.month - 1) * 31 + (d.day - 1)
  }

  lemma DayNumberOrdersDays(a: Date, b: Date)
    requires ValidDate(a) && ValidDate(b)
    ensures DayNumber(a) < DayNumber(b) <==> EarlierDay(a, b)
    ensures DayNumber(a) == DayNumber(b) <==> a == b
  {
  }

  datatype OvertimeOption = Payout | Keep

  /** The nominal working day against which overtime is measured. */
  const StandardDayMinutes := 8 * 60

  /** One logged day. `startTime` and `endTime` are `HH:MM` text, empty for a
      vacation or holiday; `totalMinutes` and `overtimeMinutes` are derived
      when the entry is created. */
  datatype TimeEntry = TimeEntry(
    id: string,
    date: Date,
    startTime: string,
    endTime: string,
    pause: int,
    location: string,
    totalMinutes: int,
    overtimeMinutes: int,
    isVacation: bool,
    isHoliday: bool)

  predicate IsSpecial(e: TimeEntry)
  {
    e.isVacation || e.isHoliday
  }

  /** What every stored entry satisfies: a vacation or holiday carries no
      times, no pause and no hours; an ordinary entry has non-negative worked
      time and overtime measured against the nominal day. */
  predicate Consistent(e: TimeEntry)
  {
    if IsSpecial(e) then
      e.startTime == "" && e.endTime == "" && e.pause == 0
      && e.totalMinutes == 0 && e.overtimeMinutes == 0
    else
      e.totalMinutes >= 0 && e.overtimeMinutes == e.totalMinutes - StandardDayMinutes
  }

  function EntryKey(e: TimeEntry): int
  {
    DayNumber(e.date)
  }

  /** The translated labels that stand in for a location on special days. */
  datatype Labels = Labels(vacation: string, holiday: string)
}
