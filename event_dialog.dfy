/** The event dialog: the generated event code, the form it opens with, and the
    save command, which checks the required fields, derives the payload's year and
    ISO dates and then updates or creates. */
module EventDialog {
  import opened Common
  import opened Text
  import opened Calendar
  import opened RandomCode

  /** The event form. `startDate` and `endDate` hold the `YYYY-MM-DD` text of the
      date inputs; in a payload they hold ISO timestamps. */
  datatype EventFormData = EventFormData(
    eventId: Option<int>,
    name: string,
    code: string,
    sportType: string,
    year: Option<int>,
    seasonId: int,
    gamedayId: int,
    venueId: Option<int>,
    gender: Option<string>,
    startDate: string,
    endDate: Option<string>,
    location: Option<string>,
    description: Option<string>,
    status: Option<string>)

  /** `generateEventCode()`: 'EVT' followed by five digits. */
  function GenerateEventCode(u: real): (code: string)
    requires 0.0 <= u < 1.0
    ensures |code| == 8 && code[..3] == "EVT" && AllDigitsIn(code[3..], 10)
    ensures ParseInt(code[3..]) == Finite(FiveDigitNumber(u) as real)
  {
    PrefixedCode("EVT", u)
  }

  /** The form of a new event, from the random draw, the current year and the
      current instant as an ISO timestamp. */
  function InitialForm(u: real, thisYear: int, nowIso: string): (f: EventFormData)
    requires 0.0 <= u < 1.0
    ensures f.eventId.None? && f.name == "" && f.code == GenerateEventCode(u)
    ensures f.sportType == "ATHLETICS" && f.year == Some(thisYear)
    ensures f.seasonId == 1 && f.gamedayId == 1 && f.status == Some("SCHEDULED")
    ensures f.startDate == Prefix(nowIso, 10) && f.startDate <= nowIso
    ensures f.venueId.None? && f.gender.None? && f.endDate.None? && f.location.None? && f.description.None?
  {
    EventFormData(None, "", GenerateEventCode(u), "ATHLETICS", Some(thisYear), 1, 1,
                  None, None, Prefix(nowIso, 10), None, None, None, Some("SCHEDULED"))
  }

  /** The form after the dialog receives `eventData`: that data when there is some,
      otherwise the form it had. */
  function OpenWith(eventData: Option<EventFormData>, current: EventFormData): (f: EventFormData)
    ensures eventData.Some? ==> f == eventData.value
    ensures eventData.None? ==> f == current
  {
    if eventData.Some? then eventData.value else current
  }

  // ---------------------------------------------------------------------------
  // The payload

  /** The required fields: a name, a code and a start date. */
  predicate MissingRequired(form: EventFormData)
  {
    form.name == "" || form.code == "" || form.startDate == ""
  }

  /** A new event's form is not saved until it is given a name. */
  lemma InitialFormNeedsName(u: real, thisYear: int, nowIso: string)
    requires 0.0 <= u < 1.0
    ensures MissingRequired(InitialForm(u, thisYear, nowIso))
    ensures |nowIso| >= 10 ==> !MissingRequired(InitialForm(u, thisYear, nowIso).(name := "Final"))
  {
  }

  /** `new Date(day + 'T00:00:00.000Z').toISOString()` for a `YYYY-MM-DD` day:
      midnight UTC of that day. */
  function IsoMidnight(day: string): (iso: string)
    ensures |iso| == |day| + 14 && iso[..|day|] == day
  {
    day + "T00:00:00.000Z"
  }

  // ---------------------------------------------------------------------------
  // The payload's year

  /** `new Date(startDate).getFullYear()` as the dialog computes it, for a local
      time `offsetMinutes` ahead of UTC: the date input's day is read as midnight
      UTC and its year taken in local time. Nothing (NaN, sent as null) when the
      text names no day. */
  function DateYear(startDate: string, offsetMinutes: int): (year: Option<int>)
    requires -1440 < offsetMinutes < 1440
    ensures year.None? <==> DayOfDateText(startDate).None?
    ensures year.Some? ==> var d := DayOfDateText(startDate).value;
              (year.value == d.year || year.value == d.year - 1) &&
              (year.value != d.year <==> offsetMinutes < 0 && d.month == 0 && d.day == 1)
  {
    match DayOfDateText(startDate)
    case Some(d) => Some(LocalYearOfUtcMidnight(d, offsetMinutes))
    case None => None
  }

  /** The year of the local day on which midnight UTC of d falls. */
  function LocalYearOfUtcMidnight(d: CalendarDate, offsetMinutes: int): (y: int)
    requires ValidDate(d) && -1440 < offsetMinutes < 1440
    ensures y == d.year || y == d.year - 1
    ensures y != d.year <==> offsetMinutes < 0 && d.month == 0 && d.day == 1
  {
    LocalDayOfUtcMidnight(d, offsetMinutes).year
  }

  /** For the text of a day with a four-digit year, the dialog's year is the local
      year of that day's midnight UTC. */
  lemma DateYearOfKey(d: CalendarDate, offsetMinutes: int)
    requires ValidDate(d) && 1000 <= d.year <= 9999 && -1440 < offsetMinutes < 1440
    ensures KeyRange(d) && DateYear(DateKey(d), offsetMinutes) == Some(LocalYearOfUtcMidnight(d, offsetMinutes))
  {
    DayOfDateTextOfKey(d);
  }

  /** The corrected year: the year written at the head of the start date, as
      `parseInt` reads it. */
  function PayloadYear(startDate: string): (year: Option<int>)
    ensures year.Some? <==> ParseInt(startDate).Finite?
    ensures year.Some? ==> year.value == ParseInt(startDate).value.Floor
  {
    match ParseInt(startDate)
    case Finite(v) => Some(v.Floor)
    case NaN => None
  }

  /** The corrected year of a date input's text is that date's year. */
  lemma PayloadYearOfKey(d: CalendarDate)
    requires KeyRange(d) && d.year >= 0
    ensures PayloadYear(DateKey(d)) == Some(d.year)
  {
    ParseIntOfDateKey(d);
  }

  /** On 1 January west of UTC the dialog's year is the previous one, while the
      year written in the date is the right one. */
  lemma NewYearsDayWestOfUtc()
    ensures DateYear("2025-01-01", -300) == Some(2024)
    ensures PayloadYear("2025-01-01") == Some(2025)
  {
    var d := CalendarDate(2025, 0, 1);
    NewYearsDayKey();
    DateYearOfKey(d, -300);
    PayloadYearOfKey(d);
  }

  lemma NewYearsDayKey()
    ensures KeyRange(CalendarDate(2025, 0, 1)) && DateKey(CalendarDate(2025, 0, 1)) == "2025-01-01"
  {
    assert NatToString(2) == "2";
    assert NatToString(20) == NatToString(2) + [DigitChar(0)] == "20";
    assert NatToString(202) == NatToString(20) + [DigitChar(2)] == "202";
    assert NatToString(2025) == NatToString(202) + [DigitChar(5)] == "2025";
    assert Pad2(1) == "01";
  }

  /** Everywhere from UTC eastwards, and on every other day, the two agree. */
  lemma LocalYearAgreesElsewhere(d: CalendarDate, offsetMinutes: int)
    requires ValidDate(d) && 1000 <= d.year <= 9999 && -1440 < offsetMinutes < 1440
    requires offsetMinutes >= 0 || d.month != 0 || d.day != 1
    ensures KeyRange(d) && DateYear(DateKey(d), offsetMinutes) == PayloadYear(DateKey(d)) == Some(d.year)
  {
    DateYearOfKey(d, offsetMinutes);
    PayloadYearOfKey(d);
  }

  // ---------------------------------------------------------------------------
  // The save

  /** The data sent to the server as the dialog builds it: the form with the local
      year of its start date and both dates as midnight-UTC timestamps; an empty
      end date is left out. */
  function SavePayload(form: EventFormData, offsetMinutes: int): (p: EventFormData)
    requires -1440 < offsetMinutes < 1440
    ensures p.(year := form.year, startDate := form.startDate, endDate := form.endDate) == form
    ensures p.year == DateYear(form.startDate, offsetMinutes)
    ensures p.startDate == IsoMidnight(form.startDate)
    ensures p.endDate.Some? <==> Truthy(form.endDate)
    ensures p.endDate.Some? ==> p.endDate.value == IsoMidnight(form.endDate.value)
  {
    form.(year := DateYear(form.startDate, offsetMinutes),
          startDate := IsoMidnight(form.startDate),
          endDate := if Truthy(form.endDate) then Some(IsoMidnight(form.endDate.value)) else None)
  }

  /** The payload with the corrected year, the one written in the start date, and
      everything else as the dialog builds it. */
  function CorrectedSavePayload(form: EventFormData): (p: EventFormData)
    ensures p.(year := form.year, startDate := form.startDate, endDate := form.endDate) == form
    ensures p.year == PayloadYear(form.startDate)
    ensures p.startDate == IsoMidnight(form.startDate)
    ensures p.endDate.Some? <==> Truthy(form.endDate)
    ensures p.endDate.Some? ==> p.endDate.value == IsoMidnight(form.endDate.value)
  {
    form.(year := PayloadYear(form.startDate),
          startDate := IsoMidnight(form.startDate),
          endDate := if Truthy(form.endDate) then Some(IsoMidnight(form.endDate.value)) else None)
  }

  /** For a start date with a four-digit year the two payloads differ only in the
      year, and they differ exactly on 1 January west of UTC. */
  lemma SavePayloadsAgreeIff(form: EventFormData, d: CalendarDate, offsetMinutes: int)
    requires ValidDate(d) && 1000 <= d.year <= 9999 && -1440 < offsetMinutes < 1440
    requires KeyRange(d) && form.startDate == DateKey(d)
    ensures SavePayload(form, offsetMinutes) == CorrectedSavePayload(form).(year := SavePayload(form, offsetMinutes).year)
    ensures SavePayload(form, offsetMinutes) == CorrectedSavePayload(form) <==>
            !(offsetMinutes < 0 && d.month == 0 && d.day == 1)
  {
    DateYearOfKey(d, offsetMinutes);
    PayloadYearOfKey(d);
    var p, q := SavePayload(form, offsetMinutes), CorrectedSavePayload(form);
    if p == q {
      assert p.year == q.year;
    }
  }

  /** The service call a save makes. */
  datatype EventSave = Skipped | UpdateEvent(eventId: int, payload: EventFormData) | CreateEvent(payload: EventFormData)

  /** `handleSave`: nothing without the required fields; otherwise an update when
      the form carries a (non-zero) event id and a create when it does not, both
      with the payload as the dialog builds it. */
  method HandleSave(form: EventFormData, offsetMinutes: int) returns (action: EventSave)
    requires -1440 < offsetMinutes < 1440
    ensures action == Skipped <==> MissingRequired(form)
    ensures action.UpdateEvent? <==> !MissingRequired(form) && TruthyInt(form.eventId)
    ensures action.CreateEvent? <==> !MissingRequired(form) && !TruthyInt(form.eventId)
    ensures action.UpdateEvent? ==> action.eventId == form.eventId.value && action.payload == SavePayload(form, offsetMinutes)
    ensures action.CreateEvent? ==> action.payload == SavePayload(form, offsetMinutes)
  {
    if MissingRequired(form) {
      return Skipped;
    }
    var payload := SavePayload(form, offsetMinutes);
    if TruthyInt(form.eventId) {
      action := UpdateEvent(form.eventId.value, payload);
    } else {
      action := CreateEvent(payload);
    }
  }
}
