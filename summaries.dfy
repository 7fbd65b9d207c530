/** The monthly and yearly summaries of the home page: a filter to the target
    month or year followed by a left fold (`reduce`) that puts every entry in
    one bucket: vacation (tested first), holiday, or ordinary working day. */
module Summaries {
  import opened Types
  import opened Seqs

  datatype MonthlySummary = MonthlySummary(
    totalWorkMinutes: int,
    totalOvertimeMinutes: int,
    totalPause: int,
    vacationDays: int,
    holidayDays: int)

  const EmptyMonth := MonthlySummary(0, 0, 0, 0, 0)

  /** The three buckets. */
  predicate IsVacation(e: TimeEntry) { e.isVacation }
  predicate IsHolidayOnly(e: TimeEntry) { !e.isVacation && e.isHoliday }
  predicate IsOrdinary(e: TimeEntry) { !e.isVacation && !e.isHoliday }

  function WorkOf(e: TimeEntry): int { e.totalMinutes }
  function OvertimeOf(e: TimeEntry): int { e.overtimeMinutes }
  function PauseOf(e: TimeEntry): int { e.pause }

  function OrdinaryEntries(s: seq<TimeEntry>): seq<TimeEntry>
  {
    Filter(s, IsOrdinary)
  }

  /** One step of the monthly `reduce`. */
  function MonthStep(acc: MonthlySummary, e: TimeEntry): MonthlySummary
  {
    if e.isVacation then acc.(vacationDays := acc.vacationDays + 1)
    else if e.isHoliday then acc.(holidayDays := acc.holidayDays + 1)
    else acc.(totalWorkMinutes := acc.totalWorkMinutes + e.totalMinutes,
              totalOvertimeMinutes := acc.totalOvertimeMinutes + e.overtimeMinutes,
              totalPause := acc.totalPause + e.pause)
  }

  /** The fold from the left, starting at the all-zero summary. */
  function Tally(s: seq<TimeEntry>): MonthlySummary
  {
    if s == [] then EmptyMonth else MonthStep(Tally(s[..|s| - 1]), s[|s| - 1])
  }

  predicate InMonth(e: TimeEntry, month: int, year: int)
  {
    e.date.month == month && e.date.year == year
  }

  /** The test `monthlyEntries` filters with. */
  function InMonthTest(month: int, year: int): TimeEntry -> bool
  {
    (e: TimeEntry) => InMonth(e, month, year)
  }

  /** The entries of one month, in list order. */
  function MonthlyEntries(s: seq<TimeEntry>, month: int, year: int): seq<TimeEntry>
  {
    Filter(s, InMonthTest(month, year))
  }

  function MonthlySummaryOf(s: seq<TimeEntry>, month: int, year: int): MonthlySummary
  {
    Tally(MonthlyEntries(s, month, year))
  }

  function Plus(a: MonthlySummary, b: MonthlySummary): MonthlySummary
  {
    MonthlySummary(
      a.totalWorkMinutes + b.totalWorkMinutes,
      a.totalOvertimeMinutes + b.totalOvertimeMinutes,
      a.totalPause + b.totalPause,
      a.vacationDays + b.vacationDays,
      a.holidayDays + b.holidayDays)
  }

  /** The summary of a concatenation is the sum of the summaries. */
  lemma {:induction false} TallyAppend(a: seq<TimeEntry>, b: seq<TimeEntry>)
    ensures Tally(a + b) == Plus(Tally(a), Tally(b))
  {
    if b == [] {
      assert a + b == a;
    } else {
      var b' := b[..|b| - 1];
      assert (a + b)[..|a + b| - 1] == a + b';
      assert (a + b)[|a + b| - 1] == b[|b| - 1];
      TallyAppend(a, b');
    }
  }

  /** The buckets read off directly: the day counts are the numbers of
      vacation and holiday entries, the hours and the pause are sums over the
      ordinary entries only. */
  function Buckets(s: seq<TimeEntry>): MonthlySummary
  {
    MonthlySummary(
      Sum(OrdinaryEntries(s), WorkOf),
      Sum(OrdinaryEntries(s), OvertimeOf),
      Sum(OrdinaryEntries(s), PauseOf),
      |Filter(s, IsVacation)|,
      |Filter(s, IsHolidayOnly)|)
  }

  lemma BucketsAppend(a: seq<TimeEntry>, b: seq<TimeEntry>)
    ensures Buckets(a + b) == Plus(Buckets(a), Buckets(b))
  {
    assert |Filter(a + b, IsVacation)| == |Filter(a, IsVacation)| + |Filter(b, IsVacation)| by {
      FilterAppend(a, b, IsVacation);
    }
    assert |Filter(a + b, IsHolidayOnly)| == |Filter(a, IsHolidayOnly)| + |Filter(b, IsHolidayOnly)| by {
      FilterAppend(a, b, IsHolidayOnly);
    }
    var oa, ob := OrdinaryEntries(a), OrdinaryEntries(b);
    assert OrdinaryEntries(a + b) == oa + ob by {
      FilterAppend(a, b, IsOrdinary);
    }
    assert Sum(oa + ob, WorkOf) == Sum(oa, WorkOf) + Sum(ob, WorkOf) by { SumAppend(oa, ob, WorkOf); }
    assert Sum(oa + ob, OvertimeOf) == Sum(oa, OvertimeOf) + Sum(ob, OvertimeOf) by { SumAppend(oa, ob, OvertimeOf); }
    assert Sum(oa + ob, PauseOf) == Sum(oa, PauseOf) + Sum(ob, PauseOf) by { SumAppend(oa, ob, PauseOf); }
  }

  /** The fold agrees with the buckets read off directly, and every entry is
      in exactly one bucket. */
  lemma {:induction false} TallyBuckets(s: seq<TimeEntry>)
    ensures Tally(s) == Buckets(s)
    ensures |Filter(s, IsVacation)| + |Filter(s, IsHolidayOnly)| + |OrdinaryEntries(s)| == |s|
  {
    if s != [] {
      var p, x := s[..|s| - 1], s[|s| - 1];
      assert s == p + [x];
      TallyBuckets(p);
      assert Tally(s) == MonthStep(Tally(p), x);
      assert Buckets(s) == Plus(Buckets(p), MonthStep(EmptyMonth, x)) by {
        BucketsAppend(p, [x]);
        BucketsSingle(x);
      }
    }
    PartitionCount(s);
  }

  lemma {:induction false} PartitionCount(s: seq<TimeEntry>)
    ensures |Filter(s, IsVacation)| + |Filter(s, IsHolidayOnly)| + |OrdinaryEntries(s)| == |s|
  {
    if s != [] {
      PartitionCount(s[1..]);
    }
  }

  lemma BucketsSingle(x: TimeEntry)
    ensures Buckets([x]) == MonthStep(EmptyMonth, x)
  {
    assert [x][0] == x && [x][1..] == [];
    var o := OrdinaryEntries([x]);
    if IsOrdinary(x) {
      assert o == [x];
      assert o[1..] == [];
      assert Sum(o, WorkOf) == x.totalMinutes;
      assert Sum(o, OvertimeOf) == x.overtimeMinutes;
      assert Sum(o, PauseOf) == x.pause;
    } else {
      assert o == [];
    }
    assert |Filter([x], IsVacation)| == if x.isVacation then 1 else 0;
    assert |Filter([x], IsHolidayOnly)| == if IsHolidayOnly(x) then 1 else 0;
  }

  /** On consistent entries the monthly overtime is the worked time minus one
      nominal day per ordinary entry, and the worked time is never negative. */
  lemma {:induction false} OvertimeAgainstNominalDay(s: seq<TimeEntry>)
    requires forall e :: e in s ==> Consistent(e)
    ensures Tally(s).totalOvertimeMinutes
            == Tally(s).totalWorkMinutes - StandardDayMinutes * |OrdinaryEntries(s)|
    ensures Tally(s).totalWorkMinutes >= 0
  {
    TallyBuckets(s);
    OrdinarySums(OrdinaryEntries(s));
  }

  lemma {:induction false} OrdinarySums(t: seq<TimeEntry>)
    requires forall e :: e in t ==> Consistent(e) && IsOrdinary(e)
    ensures Sum(t, OvertimeOf) == Sum(t, WorkOf) - StandardDayMinutes * |t|
    ensures Sum(t, WorkOf) >= 0
  {
    if t != [] {
      assert t[0] in t;
      assert forall e :: e in t[1..] ==> e in t;
      OrdinarySums(t[1..]);
    }
  }

  datatype YearlySummary = YearlySummary(totalOvertimeMinutes: int, vacationDays: int)

  /** One step of the yearly `reduce`: vacation days are counted, holidays
      skipped, and ordinary entries add their overtime. */
  function YearStep(acc: YearlySummary, e: TimeEntry): YearlySummary
  {
    if e.isVacation then acc.(vacationDays := acc.vacationDays + 1)
    else if !e.isHoliday then acc.(totalOvertimeMinutes := acc.totalOvertimeMinutes + e.overtimeMinutes)
    else acc
  }

  function YearTally(s: seq<TimeEntry>): YearlySummary
  {
    if s == [] then YearlySummary(0, 0) else YearStep(YearTally(s[..|s| - 1]), s[|s| - 1])
  }

  predicate InYear(e: TimeEntry, year: int)
  {
    e.date.year == year
  }

  function InYearTest(year: int): TimeEntry -> bool
  {
    (e: TimeEntry) => InYear(e, year)
  }

  function YearEntries(s: seq<TimeEntry>, year: int): seq<TimeEntry>
  {
    Filter(s, InYearTest(year))
  }

  /** The yearly summary with the carry-over from the previous year added. */
  function YearlySummaryOf(s: seq<TimeEntry>, year: int, carryOverVacationDays: int,
                           carryOverOvertimeMinutes: int): YearlySummary
  {
    var t := YearTally(YearEntries(s, year));
    YearlySummary(t.totalOvertimeMinutes + carryOverOvertimeMinutes, t.vacationDays + carryOverVacationDays)
  }

  /** The yearly fold computes the overtime of the ordinary entries and the
      number of vacation entries, which are also what the monthly fold
      computes for those two fields. */
  lemma {:induction false} YearTallyBuckets(s: seq<TimeEntry>)
    ensures YearTally(s) == YearlySummary(Sum(OrdinaryEntries(s), OvertimeOf), |Filter(s, IsVacation)|)
    ensures YearTally(s) == YearlySummary(Tally(s).totalOvertimeMinutes, Tally(s).vacationDays)
  {
    YearTallyIsPartOfTally(s);
    TallyBuckets(s);
  }

  lemma {:induction false} YearTallyIsPartOfTally(s: seq<TimeEntry>)
    ensures YearTally(s) == YearlySummary(Tally(s).totalOvertimeMinutes, Tally(s).vacationDays)
  {
    if s != [] {
      YearTallyIsPartOfTally(s[..|s| - 1]);
    }
  }

  /** The yearly totals: overtime of the year's ordinary entries plus the
      carried-over overtime, and the year's vacation entries plus the
      carried-over vacation days. */
  lemma YearlyWithCarryOver(s: seq<TimeEntry>, year: int, carryOverVacationDays: int,
                            carryOverOvertimeMinutes: int)
    ensures YearlySummaryOf(s, year, carryOverVacationDays, carryOverOvertimeMinutes).totalOvertimeMinutes
            == Sum(OrdinaryEntries(YearEntries(s, year)), OvertimeOf) + carryOverOvertimeMinutes
    ensures YearlySummaryOf(s, year, carryOverVacationDays, carryOverOvertimeMinutes).vacationDays
            == |Filter(YearEntries(s, year), IsVacation)| + carryOverVacationDays
  {
    YearTallyBuckets(YearEntries(s, year));
  }
}
