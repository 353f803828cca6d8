/** The performances table's cell texts. */
module PerformanceColumns {
  import opened Common
  import opened Text
  import opened Entities

  /** The athlete cell: `first last (code)`, with missing parts rendered as
      nothing, or 'Unknown Athlete' without an athlete. */
  function AthleteCell(athlete: Option<AthleteSummary>): (cell: string)
    ensures athlete.None? ==> cell == "Unknown Athlete"
    ensures athlete.Some? ==>
              var a := athlete.value;
              cell == OrElse(a.firstName, "") + " " + OrElse(a.lastName, "") + " (" + OrElse(a.code, "") + ")"
    ensures athlete.Some? ==> cell[|cell| - 1] == ')'
  {
    match athlete
    case None => "Unknown Athlete"
    case Some(a) => OrElse(a.firstName, "") + " " + OrElse(a.lastName, "") + " (" + OrElse(a.code, "") + ")"
  }

  /** The event cell: its name, or 'Unknown Event' without an event. */
  function EventCell(event: Option<EventSummary>): (cell: string)
    ensures event.None? ==> cell == "Unknown Event"
    ensures event.Some? ==> cell == OrElse(event.value.name, "")
  {
    if event.Some? then OrElse(event.value.name, "") else "Unknown Event"
  }

  /** The discipline cell: its name, or 'N/A' without a discipline. */
  function DisciplineCell(discipline: Option<DisciplineSummary>): (cell: string)
    ensures discipline.None? ==> cell == "N/A"
    ensures discipline.Some? ==> cell == OrElse(discipline.value.name, "")
  {
    if discipline.Some? then OrElse(discipline.value.name, "") else "N/A"
  }

  /** A field JavaScript treats as true: present and not 0. */
  predicate StatTruthy(stats: map<Field, int>, f: Field)
  {
    f in stats && stats[f] != 0
  }

  /** A numeric cell: the value followed by `unit` when it is truthy, else 'N/A'.
      Position uses the unit as a leading '#'; time, distance and height append
      's', 'm' and 'm'; points append nothing. */
  function StatCell(stats: map<Field, int>, f: Field, before: string, after: string): (cell: string)
    ensures !StatTruthy(stats, f) ==> cell == "N/A"
    ensures StatTruthy(stats, f) ==>
              |cell| == |before| + |IntToString(stats[f])| + |after| &&
              cell[..|before|] == before &&
              cell[|before|..|cell| - |after|] == IntToString(stats[f]) &&
              cell[|cell| - |after|..] == after
  {
    if StatTruthy(stats, f) then
      var cell := before + IntToString(stats[f]) + after;
      assert cell[|before|..|cell| - |after|] == IntToString(stats[f]);
      cell
    else "N/A"
  }

  function PositionCell(stats: map<Field, int>): string { StatCell(stats, Placing, "#", "") }
  function TimeCell(stats: map<Field, int>): string { StatCell(stats, Time, "", "s") }
  function DistanceCell(stats: map<Field, int>): string { StatCell(stats, Distance, "", "m") }
  function HeightCell(stats: map<Field, int>): string { StatCell(stats, Height, "", "m") }
  function PointsCell(stats: map<Field, int>): string { StatCell(stats, Points, "", "") }

  /** A shown position reads back as the stored one; position 0 shows 'N/A' like a
      missing one. */
  lemma PositionCellReadsBack(stats: map<Field, int>)
    ensures StatTruthy(stats, Placing) ==>
              PositionCell(stats)[0] == '#' && ParseInt(PositionCell(stats)[1..]) == Finite(stats[Placing] as real)
    ensures Placing in stats && stats[Placing] == 0 ==> PositionCell(stats) == "N/A"
  {
    if StatTruthy(stats, Placing) {
      var v := stats[Placing];
      var text := IntToString(v);
      var cell := PositionCell(stats);
      assert cell == "#" + text + "";
      assert cell[1..] == text;
      ParseIntOfIntToString(v);
    }
  }

  /** A shown time reads back as the stored one (`parseFloat` stops at the unit). */
  lemma TimeCellReadsBack(stats: map<Field, int>)
    requires StatTruthy(stats, Time) && stats[Time] > 0
    ensures ParseFloat(TimeCell(stats)) == Finite(stats[Time] as real)
  {
    var digits := NatToString(stats[Time]);
    assert TimeCell(stats) == digits + "s";
    ParseFloatOfDigitsThenUnit(digits, stats[Time], "s");
  }

  /** `parseFloat` of digits followed by a letter reads the digits. */
  lemma ParseFloatOfDigitsThenUnit(digits: string, m: nat, unit: string)
    requires digits != [] && AllDigitsIn(digits, 10) && DigitsValue(digits, 10) == m
    requires unit != [] && !IsDigitIn(unit[0], 10) && unit[0] != '.'
    ensures ParseFloat(digits + unit) == Finite(m as real)
  {
    var t := digits + unit;
    assert t[0] == digits[0] && IsDigitIn(t[0], 10);
    TrimStartOfDigits(t);
    LeadingDigitsUpTo(digits, unit, 10);
    assert t[|digits|..] == unit;
  }

  /** The best-result badge. */
  function Badge(isPersonalBest: bool, isSeasonBest: bool): (badge: string)
    ensures badge == "PB & SB" <==> isPersonalBest && isSeasonBest
    ensures badge == "PB" <==> isPersonalBest && !isSeasonBest
    ensures badge == "SB" <==> !isPersonalBest && isSeasonBest
    ensures badge == "N/A" <==> !isPersonalBest && !isSeasonBest
  {
    if isPersonalBest && isSeasonBest then "PB & SB"
    else if isPersonalBest then "PB"
    else if isSeasonBest then "SB"
    else "N/A"
  }
}
