/** The home page: the entry store with its two commands, `addEntry` and
    `deleteEntry`, the hours calculator that fills in a new entry, and the
    monthly and yearly summaries read off the store. */
module Timesheet {
  import opened Types
  import opened Seqs
  import opened Sorting
  import opened Clock
  import opened Summaries

  /** Minutes from `start` to `end`, both minutes after midnight. An end
      earlier than the start is taken to be on the next day. */
  function ShiftMinutes(start: int, end: int): (d: int)
    requires 0 <= start < MinutesPerDay && 0 <= end < MinutesPerDay
    ensures 0 <= d < MinutesPerDay
    ensures (start + d) % MinutesPerDay == end
    ensures d == end - start <==> start <= end
  {
    var diff := end - start;
    if diff < 0 then diff + MinutesPerDay else diff
  }

  /** Worked time: the shift less the pause, but never below zero. */
  function WorkedMinutes(shift: int, pause: int): (w: int)
    ensures w >= 0 && w >= shift - pause
    ensures w == 0 || w == shift - pause
  {
    if shift - pause > 0 then shift - pause else 0
  }

  /** What the form hands to `addEntry`: an entry without id and hours. */
  datatype EntryInput = EntryInput(
    date: Date,
    startTime: string,
    endTime: string,
    pause: int,
    location: string,
    isVacation: bool,
    isHoliday: bool)

  /** A vacation or holiday needs no times; any other day needs two readable ones. */
  predicate Readable(input: EntryInput)
  {
    input.isVacation || input.isHoliday
    || (ParseClock(input.startTime).Some? && ParseClock(input.endTime).Some?)
  }

  /** The entry `addEntry` builds from its input and a fresh id. */
  function NewEntry(input: EntryInput, id: string, labels: Labels): (e: TimeEntry)
    requires Readable(input)
    ensures e.id == id && e.date == input.date
    ensures e.isVacation == input.isVacation && e.isHoliday == input.isHoliday
    ensures Consistent(e)
    ensures IsSpecial(e) ==> e.location == (if input.isVacation then labels.vacation else labels.holiday)
    ensures !IsSpecial(e) ==>
              e.startTime == input.startTime && e.endTime == input.endTime
              && e.pause == input.pause && e.location == input.location
  {
    if input.isVacation || input.isHoliday then
      TimeEntry(id, input.date, "", "", 0, if input.isVacation then labels.vacation else labels.holiday,
                0, 0, input.isVacation, input.isHoliday)
    else
      var start, end := ParseClock(input.startTime).value, ParseClock(input.endTime).value;
      var total := WorkedMinutes(ShiftMinutes(start, end), input.pause);
      TimeEntry(id, input.date, input.startTime, input.endTime, input.pause, input.location,
                total, total - StandardDayMinutes, input.isVacation, input.isHoliday)
  }

  /** An ordinary entry's hours: the shift between its two times (wrapping
      past midnight) less the pause, floored at zero, and the overtime against
      the eight-hour day, which can be negative. */
  lemma OrdinaryEntryHours(input: EntryInput, id: string, labels: Labels, start: int, end: int)
    requires !input.isVacation && !input.isHoliday
    requires ParseClock(input.startTime) == Some(start) && ParseClock(input.endTime) == Some(end)
    ensures ShiftMinutes(start, end) > input.pause ==>
              (start + NewEntry(input, id, labels).totalMinutes + input.pause) % MinutesPerDay == end
    ensures ShiftMinutes(start, end) <= input.pause ==> NewEntry(input, id, labels).totalMinutes == 0
    ensures input.pause >= 0 ==> NewEntry(input, id, labels).totalMinutes <= ShiftMinutes(start, end)
    ensures NewEntry(input, id, labels).overtimeMinutes == NewEntry(input, id, labels).totalMinutes - StandardDayMinutes
  {
    var d := ShiftMinutes(start, end);
    var w := WorkedMinutes(d, input.pause);
    if d > input.pause {
      assert start + w + input.pause == start + d;
    }
  }

  /** A night shift from 23:00 to 06:00 lasts seven hours. */
  lemma OvernightShiftExample(id: string, labels: Labels)
    ensures NewEntry(EntryInput(Date(2024, 5, 6), "23:00", "06:00", 0, "Depot", false, false), id, labels).totalMinutes
            == 7 * 60
  {
    assert ParseClock("23:00") == Some(23 * 60);
    assert ParseClock("06:00") == Some(6 * 60);
  }

  /** 07:00 to 16:00 with an hour's pause is exactly the nominal day. */
  lemma NominalDayExample(id: string, labels: Labels)
    ensures var e := NewEntry(EntryInput(Date(2024, 5, 6), "07:00", "16:00", 60, "Office", false, false), id, labels);
            e.totalMinutes == 8 * 60 && e.overtimeMinutes == 0
  {
    assert ParseClock("07:00") == Some(7 * 60);
    assert ParseClock("16:00") == Some(16 * 60);
  }

  /** Whether some entry is on calendar day `d`. */
  predicate HasDay(s: seq<TimeEntry>, d: Date)
  {
    exists e :: e in s && e.date == d
  }

  /** No two entries share a calendar day. */
  ghost predicate DistinctDays(s: seq<TimeEntry>)
  {
    forall i, j :: 0 <= i < j < |s| ==> s[i].date != s[j].date
  }

  /** What the store keeps true: valid, consistent entries, newest first,
      one per calendar day. */
  ghost predicate EntriesValid(s: seq<TimeEntry>)
  {
    (forall e :: e in s ==> ValidDate(e.date) && Consistent(e))
    && StrictlyDesc(s, EntryKey)
  }

  /** Strict order on the day number means distinct calendar days, and
      conversely a list with one entry per day sorts into strict order. */
  lemma StrictMeansDistinctDays(s: seq<TimeEntry>)
    requires forall e :: e in s ==> ValidDate(e.date)
    ensures StrictlyDesc(s, EntryKey) ==> DistinctDays(s)
    ensures DistinctDays(s) && SortedDesc(s, EntryKey) ==> StrictlyDesc(s, EntryKey)
  {
    forall i, j | 0 <= i < j < |s|
      ensures EntryKey(s[i]) == EntryKey(s[j]) <==> s[i].date == s[j].date
    {
      assert s[i] in s && s[j] in s;
      DayNumberOrdersDays(s[i].date, s[j].date);
    }
  }

  /** The test `deleteEntry` filters with. */
  function OtherId(id: string): TimeEntry -> bool
  {
    (e: TimeEntry) => e.id != id
  }

  /** The entries without the given id, in their original order. */
  function WithoutId(s: seq<TimeEntry>, id: string): seq<TimeEntry>
  {
    Filter(s, OtherId(id))
  }

  /** A new entry on a day not yet in the store: appending and sorting puts it
      in its place among the others, which all stay, and the store keeps its
      invariant. */
  lemma AddedEntryStore(s: seq<TimeEntry>, e: TimeEntry)
    requires EntriesValid(s)
    requires ValidDate(e.date) && Consistent(e)
    requires !HasDay(s, e.date)
    ensures SortDesc(s + [e], EntryKey) == InsertDesc(e, s, EntryKey)
    ensures EntriesValid(SortDesc(s + [e], EntryKey))
    ensures |SortDesc(s + [e], EntryKey)| == |s| + 1
    ensures multiset(SortDesc(s + [e], EntryKey)) == multiset(s) + multiset{e}
  {
    forall y | y in s ensures EntryKey(y) != EntryKey(e) {
      DayNumberOrdersDays(y.date, e.date);
    }
    SortAppendFresh(s, e, EntryKey);
  }

  /** Deleting keeps the store's invariant, removes exactly the entries with
      that id, changes nothing for an unknown id, and is idempotent. */
  lemma DeletedEntryStore(s: seq<TimeEntry>, id: string)
    requires EntriesValid(s)
    ensures EntriesValid(WithoutId(s, id))
    ensures forall e :: e in WithoutId(s, id) <==> e in s && e.id != id
    ensures (forall e :: e in s ==> e.id != id) ==> WithoutId(s, id) == s
    ensures WithoutId(WithoutId(s, id), id) == WithoutId(s, id)
  {
    FilterStrict(s, OtherId(id), EntryKey);
    if forall e :: e in s ==> e.id != id {
      FilterKeepsAll(s, OtherId(id));
    }
    FilterIdempotent(s, OtherId(id));
  }

  /** Deleting an entry that was just added under a fresh id gives back the
      store as it was (the added list is `InsertDesc` by `AddedEntryStore`). */
  lemma AddThenDelete(s: seq<TimeEntry>, e: TimeEntry)
    requires SortedDesc(s, EntryKey)
    requires forall y :: y in s ==> y.id != e.id
    ensures WithoutId(InsertDesc(e, s, EntryKey), e.id) == s
  {
    var k := InsertSplit(e, s, EntryKey);
    FilterRemovesInserted(s, k, e, OtherId(e.id));
  }

  /** Adding an entry adds its own contribution to its month's summary and
      leaves the rest of the summary as it was. */
  lemma AddedEntrySummary(s: seq<TimeEntry>, e: TimeEntry, month: int, year: int)
    requires SortedDesc(s, EntryKey)
    ensures MonthlySummaryOf(InsertDesc(e, s, EntryKey), month, year)
            == Plus(MonthlySummaryOf(s, month, year), MonthlySummaryOf([e], month, year))
  {
    var k := InsertSplit(e, s, EntryKey);
    var keep := InMonthTest(month, year);
    var a, b := s[..k], s[k..];
    assert s == a + b;
    var fa, fe, fb := Filter(a, keep), Filter([e], keep), Filter(b, keep);
    assert MonthlyEntries(s, month, year) == fa + fb by {
      FilterAppend(a, b, keep);
    }
    assert MonthlyEntries(InsertDesc(e, s, EntryKey), month, year) == (fa + fe) + fb by {
      FilterAppend(a + [e], b, keep);
      FilterAppend(a, [e], keep);
    }
    assert Tally(fa + fb) == Plus(Tally(fa), Tally(fb)) by { TallyAppend(fa, fb); }
    assert Tally((fa + fe) + fb) == Plus(Plus(Tally(fa), Tally(fe)), Tally(fb)) by {
      TallyAppend(fa + fe, fb);
      TallyAppend(fa, fe);
    }
    PlusRegroup(Tally(fa), Tally(fe), Tally(fb));
  }

  lemma PlusRegroup(a: MonthlySummary, e: MonthlySummary, b: MonthlySummary)
    ensures Plus(Plus(a, e), b) == Plus(Plus(a, b), e)
  {
  }

  /** A vacation day added in the month raises that month's vacation count by
      exactly one and changes no other figure. */
  lemma AddedVacationCountsOneDay(s: seq<TimeEntry>, e: TimeEntry)
    requires SortedDesc(s, EntryKey)
    requires e.isVacation
    ensures var before, after := MonthlySummaryOf(s, e.date.month, e.date.year),
                                 MonthlySummaryOf(InsertDesc(e, s, EntryKey), e.date.month, e.date.year);
            after == before.(vacationDays := before.vacationDays + 1)
  {
    AddedEntrySummary(s, e, e.date.month, e.date.year);
    var keep := InMonthTest(e.date.month, e.date.year);
    assert Filter([e], keep) == [e];
    assert Tally([e]) == MonthStep(EmptyMonth, e) by {
      assert [e][..0] == [];
    }
  }

  datatype AddOutcome = Added(entry: TimeEntry) | NameRequired | DateExists(date: Date)

  /** The state of the home page. */
  class Home {
    var entries: seq<TimeEntry>
    var userName: string
    var overtimeOption: OvertimeOption
    var carryOverVacationDays: int
    var carryOverOvertimeMinutes: int

    ghost predicate Valid()
      reads this
    {
      EntriesValid(entries)
    }

    constructor ()
      ensures Valid()
      ensures entries == [] && userName == "" && overtimeOption == Keep
      ensures carryOverVacationDays == 0 && carryOverOvertimeMinutes == 0
    {
      entries := [];
      userName := "";
      overtimeOption := Keep;
      carryOverVacationDays := 0;
      carryOverOvertimeMinutes := 0;
    }

    /** Adds an entry unless no user name is set or the day already has one;
        the list is then appended to and sorted newest first. */
    method AddEntry(input: EntryInput, id: string, labels: Labels) returns (outcome: AddOutcome)
      requires Valid()
      requires ValidDate(input.date) && Readable(input)
      modifies this
      ensures Valid()
      ensures userName == old(userName) && overtimeOption == old(overtimeOption)
      ensures carryOverVacationDays == old(carryOverVacationDays)
      ensures carryOverOvertimeMinutes == old(carryOverOvertimeMinutes)
      ensures outcome == NameRequired <==> old(userName) == ""
      ensures outcome.DateExists? <==> old(userName) != "" && HasDay(old(entries), input.date)
      ensures outcome.DateExists? ==> outcome.date == input.date
      ensures !outcome.Added? ==> entries == old(entries)
      ensures outcome.Added? ==>
                outcome.entry == NewEntry(input, id, labels)
                && entries == SortDesc(old(entries) + [outcome.entry], EntryKey)
                && entries == InsertDesc(outcome.entry, old(entries), EntryKey)
                && |entries| == |old(entries)| + 1
                && multiset(entries) == multiset(old(entries)) + multiset{outcome.entry}
    {
      if userName == "" {
        return NameRequired;
      }
      if HasDay(entries, input.date) {
        return DateExists(input.date);
      }
      var e := NewEntry(input, id, labels);
      AddedEntryStore(entries, e);
      entries := SortDesc(entries + [e], EntryKey);
      outcome := Added(e);
    }

    /** Removes the entries with the given id. */
    method DeleteEntry(id: string)
      requires Valid()
      modifies this
      ensures Valid()
      ensures entries == WithoutId(old(entries), id)
      ensures userName == old(userName) && overtimeOption == old(overtimeOption)
      ensures carryOverVacationDays == old(carryOverVacationDays)
      ensures carryOverOvertimeMinutes == old(carryOverOvertimeMinutes)
    {
      DeletedEntryStore(entries, id);
      entries := WithoutId(entries, id);
    }

    /** The summary of the given month: every entry of the month counted in
        exactly one bucket, and the hours and pause summed over ordinary days. */
    function MonthlySummaryFor(month: int, year: int): (r: MonthlySummary)
      reads this
      ensures r == Buckets(MonthlyEntries(entries, month, year))
      ensures r.vacationDays + r.holidayDays + |OrdinaryEntries(MonthlyEntries(entries, month, year))|
              == |MonthlyEntries(entries, month, year)|
    {
      TallyBuckets(MonthlyEntries(entries, month, year));
      MonthlySummaryOf(entries, month, year)
    }

    /** The summary of the given year, carry-over included. */
    function YearlySummaryFor(year: int): (r: YearlySummary)
      reads this
      ensures r.totalOvertimeMinutes
              == Sum(OrdinaryEntries(YearEntries(entries, year)), OvertimeOf) + carryOverOvertimeMinutes
      ensures r.vacationDays == |Filter(YearEntries(entries, year), IsVacation)| + carryOverVacationDays
    {
      YearlyWithCarryOver(entries, year, carryOverVacationDays, carryOverOvertimeMinutes);
      YearlySummaryOf(entries, year, carryOverVacationDays, carryOverOvertimeMinutes)
    }
  }
}
