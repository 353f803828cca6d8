/** The events table's row action: the form the edit dialog opens with. */
module EventCellAction {
  import opened Common
  import opened Text
  import opened Entities
  import opened Calendar
  import opened EventDialog

  /** `date?.slice(0, 10)`: the day part of an ISO timestamp. */
  function DayPart(timestamp: string): (day: string)
    ensures day <= timestamp && |day| == if |timestamp| < 10 then |timestamp| else 10
  {
    Prefix(timestamp, 10)
  }

  /** The edit form of an event row. The ids, the name, the code and the status
      are copied; the sport falls back to 'ATHLETICS'; the dates keep their day
      part; every falsy optional value becomes absent; the year is not set. */
  function EditPayload(e: EventItem): (f: EventFormData)
    ensures f.eventId == Some(e.eventId) && f.name == e.name && f.code == e.code
    ensures f.seasonId == e.seasonId && f.gamedayId == e.gamedayId && f.status == Some(e.status)
    ensures f.sportType == SportNameOr(e.sport, "ATHLETICS") && f.year.None?
    ensures f.startDate == DayPart(e.startDate)
    ensures f.endDate.Some? <==> e.endDate.Some? && DayPart(e.endDate.value) != ""
    ensures f.endDate.Some? ==> f.endDate.value == DayPart(e.endDate.value)
    ensures f.venueId.Some? <==> TruthyInt(e.venueId)
    ensures f.venueId.Some? ==> f.venueId == e.venueId
    ensures f.gender == NonEmpty(e.gender)
    ensures f.location == NonEmpty(e.location) && f.description == NonEmpty(e.description)
  {
    EventFormData(
      Some(e.eventId), e.name, e.code, SportNameOr(e.sport, "ATHLETICS"), None,
      e.seasonId, e.gamedayId,
      if TruthyInt(e.venueId) then e.venueId else None,
      NonEmpty(e.gender),
      DayPart(e.startDate),
      if e.endDate.Some? then NonEmpty(Some(DayPart(e.endDate.value))) else None,
      NonEmpty(e.location), NonEmpty(e.description),
      Some(e.status))
  }

  /** The day part of a saved timestamp is the day that was saved. */
  lemma DayPartOfIsoMidnight(day: string)
    requires |day| == 10
    ensures DayPart(IsoMidnight(day)) == day
  {
  }

  /** A four-digit year prints as four characters, so its key is ten long. */
  lemma KeyLength(d: CalendarDate)
    requires KeyRange(d) && 1000 <= d.year <= 9999
    ensures |DateKey(d)| == 10
  {
    assert Pow10(3) == 1000;
    NatToStringLength(d.year, 3);
  }

  /** Editing an event that was saved on day d and saving it again with the
      corrected year sends the same start timestamp, the year of d, and the same
      id. */
  lemma EditThenSaveKeepsStart(e: EventItem, d: CalendarDate)
    requires KeyRange(d) && 1000 <= d.year <= 9999
    requires e.startDate == IsoMidnight(DateKey(d))
    ensures var p := CorrectedSavePayload(EditPayload(e));
            p.startDate == e.startDate && p.year == Some(d.year) && p.eventId == Some(e.eventId)
  {
    KeyLength(d);
    DayPartOfIsoMidnight(DateKey(d));
    PayloadYearOfKey(d);
  }

  /** The same round trip as the dialog saves it: the start timestamp and the id
      are kept, and the year is the local year of d's midnight UTC, which is d's
      year except on 1 January west of UTC. */
  lemma EditThenSaveAsWritten(e: EventItem, d: CalendarDate, offsetMinutes: int)
    requires ValidDate(d) && 1000 <= d.year <= 9999 && -1440 < offsetMinutes < 1440
    requires KeyRange(d) && e.startDate == IsoMidnight(DateKey(d))
    ensures var p := SavePayload(EditPayload(e), offsetMinutes);
            p.startDate == e.startDate && p.eventId == Some(e.eventId) &&
            p.year == Some(LocalYearOfUtcMidnight(d, offsetMinutes)) &&
            (p.year == Some(d.year) <==> !(offsetMinutes < 0 && d.month == 0 && d.day == 1))
  {
    KeyLength(d);
    DayPartOfIsoMidnight(DateKey(d));
    DateYearOfKey(d, offsetMinutes);
  }
}
