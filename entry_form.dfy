/** The new-entry form: its validation schema, the reset after a submit and
    the handling of a location suggestion. */
module EntryForm {
  import opened Types
  import opened Clock
  import opened Sorting
  import opened Timesheet

  /** The form's fields; the date picker can be cleared, leaving no date. */
  datatype FormValues = FormValues(
    date: Option<Date>,
    startTime: string,
    endTime: string,
    pause: int,
    location: string)

  datatype Field = DateField | StartTimeField | EndTimeField | PauseField | LocationField

  /** The refinement on the whole form: both times read as instants of the
      same day and the end strictly later. An unreadable time gives an invalid
      instant, and any comparison with it is false. */
  predicate EndAfterStart(v: FormValues)
  {
    ParseClock(v.startTime).Some? && ParseClock(v.endTime).Some?
    && ParseClock(v.startTime).value < ParseClock(v.endTime).value
  }

  /** The fields the schema reports. A missing date aborts the object, so the
      refinement is not run then; every other failure leaves it running, and
      its message goes on the end time. */
  function Issues(v: FormValues): set<Field>
  {
    (if v.date.None? then {DateField} else {})
    + (if !MatchesTimePattern(v.startTime) then {StartTimeField} else {})
    + (if !MatchesTimePattern(v.endTime) || (v.date.Some? && !EndAfterStart(v)) then {EndTimeField} else {})
    + (if v.pause < 0 then {PauseField} else {})
    + (if |v.location| < 1 then {LocationField} else {})
  }

  /** The form as it first appears. */
  function Defaults(today: Date): FormValues
  {
    FormValues(Some(today), "09:00", "17:00", 30, "")
  }

  /** The entry the page receives from an accepted form: never a vacation
      or a holiday. */
  function ToInput(v: FormValues): (input: EntryInput)
    requires v.date.Some?
    ensures !input.isVacation && !input.isHoliday
    ensures input.date == v.date.value && input.location == v.location && input.pause == v.pause
    ensures input.startTime == v.startTime && input.endTime == v.endTime
  {
    EntryInput(v.date.value, v.startTime, v.endTime, v.pause, v.location, false, false)
  }

  /** A form the schema accepts yields a readable same-day shift: the
      overnight branch of the hours calculator is never taken, the pause is
      not negative, the location is set, and the worked time fits between
      the two times. */
  lemma AcceptedFormIsSameDayShift(v: FormValues, id: string, labels: Labels)
    requires Issues(v) == {}
    ensures v.date.Some? && Readable(ToInput(v))
    ensures var start, end := ParseClock(v.startTime).value, ParseClock(v.endTime).value;
            && start < end
            && ShiftMinutes(start, end) == end - start
            && 0 <= NewEntry(ToInput(v), id, labels).totalMinutes <= end - start
    ensures NewEntry(ToInput(v), id, labels).pause >= 0
    ensures NewEntry(ToInput(v), id, labels).location != ""
  {
    assert DateField !in Issues(v);
    assert EndTimeField !in Issues(v);
    assert LocationField !in Issues(v);
    assert PauseField !in Issues(v);
  }

  /** The form after a submit: same date, end time and pause, the next start
      at the previous end, and no location. */
  function AfterSubmit(v: FormValues): FormValues
  {
    v.(startTime := v.endTime, location := "")
  }

  /** Submitting the reset form unchanged is refused: the start equals the
      end, and the location is empty. */
  lemma ResetFormRejected(v: FormValues)
    requires v.date.Some?
    ensures EndTimeField in Issues(AfterSubmit(v))
    ensures LocationField in Issues(AfterSubmit(v))
  {
  }

  /** The defaults pass the time, pause and end-after-start rules and fail
      only for the empty location. */
  lemma DefaultsNeedLocation(today: Date)
    ensures Issues(Defaults(today)) == {LocationField}
  {
    assert ParseClock("09:00") == Some(9 * 60);
    assert ParseClock("17:00") == Some(17 * 60);
    assert MatchesTimePattern("09:00") by {
      assert "09:00"[..2] == "09" && "09:00"[3..] == "00";
    }
    assert MatchesTimePattern("17:00") by {
      assert "17:00"[..2] == "17" && "17:00"[3..] == "00";
    }
  }

  /** The time pattern on a few inputs: the last minute of the day and a
      one-digit hour pass, hour 24 and minute 60 do not. */
  lemma TimePatternExamples()
    ensures MatchesTimePattern("23:59")
    ensures MatchesTimePattern("9:05")
    ensures !MatchesTimePattern("24:00")
    ensures !MatchesTimePattern("12:60")
  {
    assert "23:59"[..2] == "23" && "23:59"[3..] == "59";
    assert "9:05"[..1] == "9" && "9:05"[2..] == "05";
    assert "24:00"[..2] == "24";
    assert "12:60"[3..] == "60";
  }

  /** Every time the time picker can produce passes the pattern. */
  lemma FormattedTimeMatches(t: int)
    requires 0 <= t < MinutesPerDay
    ensures MatchesTimePattern(FormatClock(t))
  {
    ParseFormat(t);
  }

  /** What the suggestion action returns; an absent field is empty. */
  datatype SuggestionResult = SuggestionResult(success: bool, location: string, reason: string, error: string)

  /** The toast shown after a suggestion. */
  datatype Notice = SuggestionShown(reason: string) | SuggestionFailed(message: string)

  const DefaultSuggestionError := "Could not fetch a location suggestion."

  /** The state of the form component. */
  class Form {
    var values: FormValues
    var isSuggesting: bool

    ghost predicate Valid()
      reads this
    {
      values.date.Some? ==> ValidDate(values.date.value)
    }

    constructor (today: Date)
      requires ValidDate(today)
      ensures Valid()
      ensures values == Defaults(today) && !isSuggesting
    {
      values := Defaults(today);
      isSuggesting := false;
    }

    /** A submit: when the schema accepts the values, they go to the page's
        `addEntry` and the form is reset, whether or not the page took the
        entry; otherwise nothing happens. */
    method Submit(home: Home, id: string, labels: Labels) returns (outcome: Option<AddOutcome>)
      requires Valid() && home.Valid()
      modifies this, home
      ensures Valid() && home.Valid()
      ensures isSuggesting == old(isSuggesting)
      ensures home.userName == old(home.userName) && home.overtimeOption == old(home.overtimeOption)
      ensures home.carryOverVacationDays == old(home.carryOverVacationDays)
              && home.carryOverOvertimeMinutes == old(home.carryOverOvertimeMinutes)
      ensures outcome.None? <==> Issues(old(values)) != {}
      ensures outcome.None? ==> values == old(values) && home.entries == old(home.entries)
      ensures outcome.Some? ==>
                values == AfterSubmit(old(values))
                && (outcome.value == NameRequired <==> old(home.userName) == "")
                && (outcome.value.DateExists? <==>
                      old(home.userName) != "" && HasDay(old(home.entries), old(values).date.value))
                && (!outcome.value.Added? ==> home.entries == old(home.entries))
                && (outcome.value.Added? ==>
                      home.entries == InsertDesc(NewEntry(ToInput(old(values)), id, labels), old(home.entries), EntryKey))
    {
      if Issues(values) != {} {
        return None;
      }
      AcceptedFormIsSameDayShift(values, id, labels);
      var added := home.AddEntry(ToInput(values), id, labels);
      values := AfterSubmit(values);
      outcome := Some(added);
    }

    /** The start of `handleSuggestLocation`: the button shows progress and
        the start time is the question sent to the suggester. */
    method BeginSuggestion() returns (timeOfDay: string)
      modifies this
      ensures isSuggesting
      ensures values == old(values)
      ensures timeOfDay == values.startTime
    {
      isSuggesting := true;
      timeOfDay := values.startTime;
    }

    /** The end of `handleSuggestLocation`: a successful suggestion with a
        location fills the location field; anything else leaves the form as
        it was and reports the error, or a default message without one. */
    method FinishSuggestion(result: SuggestionResult) returns (notice: Notice)
      requires Valid()
      modifies this
      ensures Valid()
      ensures !isSuggesting
      ensures result.success && result.location != "" ==>
                values == old(values).(location := result.location) && notice == SuggestionShown(result.reason)
      ensures !(result.success && result.location != "") ==>
                values == old(values)
                && notice == SuggestionFailed(if result.error != "" then result.error else DefaultSuggestionError)
    {
      isSuggesting := false;
      if result.success && result.location != "" {
        values := values.(location := result.location);
        notice := SuggestionShown(result.reason);
      } else {
        notice := SuggestionFailed(if result.error != "" then result.error else DefaultSuggestionError);
      }
    }
  }
}
