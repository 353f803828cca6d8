/** The values the athletes table derives from each record: the age, the "primary"
    discipline and its rank, the sport type and the text of the rank cell. */
module AthleteColumns {
  import opened Common
  import opened Text
  import opened Entities
  import opened Calendar

  // ---------------------------------------------------------------------------
  // Age

  /** (y1, m1, d1) is not after (y2, m2, d2) in calendar order. */
  predicate NotAfter(y1: int, m1: int, d1: int, y2: int, m2: int, d2: int)
  {
    y1 < y2 || (y1 == y2 && (m1 < m2 || (m1 == m2 && d1 <= d2)))
  }

  /** The k-th birthday of someone born on `birth` has come by `today`. */
  predicate BirthdayReached(birth: CalendarDate, k: int, today: CalendarDate)
  {
    NotAfter(birth.year + k, birth.month, birth.day, today.year, today.month, today.day)
  }

  /** Age in whole years: the year difference, less one while this year's
      birthday has not come yet. */
  function CalculateAge(birth: CalendarDate, today: CalendarDate): (age: int)
    ensures BirthdayReached(birth, age, today) && !BirthdayReached(birth, age + 1, today)
    ensures age == today.year - birth.year || age == today.year - birth.year - 1
    ensures age == today.year - birth.year - 1 <==>
              (today.month < birth.month || (today.month == birth.month && today.day < birth.day))
  {
    var age := today.year - birth.year;
    var monthDiff := today.month - birth.month;
    if monthDiff < 0 || (monthDiff == 0 && today.day < birth.day) then age - 1 else age
  }

  /** The age as the table computes it from a date of birth stored as a day (a
      date-only text, or midnight UTC of that day): `new Date(dateOfBirth)` is
      midnight UTC of `born`, and its local getters give the day before west of
      UTC, so the age is that of someone born a day earlier. */
  function AgeOfUtcMidnightBirth(born: CalendarDate, offsetMinutes: int, today: CalendarDate): (age: int)
    requires ValidDate(born) && -1440 < offsetMinutes < 1440
    ensures age == CalculateAge(born, today) || age == CalculateAge(born, today) + 1
    ensures offsetMinutes >= 0 ==> age == CalculateAge(born, today)
  {
    CalculateAge(LocalDayOfUtcMidnight(born, offsetMinutes), today)
  }

  /** Five hours west of UTC, someone born on 15 March 2000 is shown as 25 on
      14 March 2025, the day before their 25th birthday. */
  lemma BirthdayCountedEarly()
    ensures AgeOfUtcMidnightBirth(CalendarDate(2000, 2, 15), -300, CalendarDate(2025, 2, 14)) == 25
    ensures CalculateAge(CalendarDate(2000, 2, 15), CalendarDate(2025, 2, 14)) == 24
  {
  }

  // ---------------------------------------------------------------------------
  // Primary discipline and rank

  /** A discipline entry whose rank JavaScript treats as true: present and not 0. */
  predicate Ranked(d: AthleteDiscipline)
  {
    TruthyInt(d.currentRank)
  }

  function Rank(d: AthleteDiscipline): int
    requires Ranked(d)
  {
    d.currentRank.value
  }

  /** The index `reduce` holds after visiting the first n entries. The accumulator
      moves to the current entry only when both ranks are truthy and the current
      rank is not larger; an unranked first entry is therefore never replaced, and
      among equal minimum ranks the later entry wins. */
  function ReducedIndex(ds: seq<AthleteDiscipline>, n: nat): (k: nat)
    requires 1 <= n <= |ds|
    ensures k < n
    ensures !Ranked(ds[0]) ==> k == 0
    ensures Ranked(ds[0]) ==> Ranked(ds[k])
    ensures Ranked(ds[0]) ==> forall j :: 0 <= j < n && Ranked(ds[j]) ==> Rank(ds[k]) <= Rank(ds[j])
    ensures Ranked(ds[0]) ==> forall j :: k < j < n && Ranked(ds[j]) ==> Rank(ds[k]) < Rank(ds[j])
  {
    if n == 1 then 0
    else
      var prev := ReducedIndex(ds, n - 1);
      if Ranked(ds[prev]) && Ranked(ds[n - 1]) then
        (if Rank(ds[prev]) < Rank(ds[n - 1]) then prev else n - 1)
      else prev
  }

  /** `disciplines.reduce(...)` over a non-empty list. */
  function PrimaryIndex(ds: seq<AthleteDiscipline>): (k: nat)
    requires ds != []
    ensures k < |ds|
  {
    ReducedIndex(ds, |ds|)
  }

  predicate HasDisciplines(a: Athlete)
  {
    a.disciplines.Some? && a.disciplines.value != []
  }

  /** The code of the primary discipline, `'Unknown'` when it has none, and
      `'No Discipline'` for an athlete without disciplines. */
  function GetPrimaryDiscipline(a: Athlete): (code: string)
    ensures !HasDisciplines(a) ==> code == "No Discipline"
    ensures HasDisciplines(a) ==>
              var d := a.disciplines.value[PrimaryIndex(a.disciplines.value)];
              if d.discipline.Some? && d.discipline.value.code != "" then code == d.discipline.value.code
              else code == "Unknown"
  {
    if !HasDisciplines(a) then "No Discipline"
    else
      var d := a.disciplines.value[PrimaryIndex(a.disciplines.value)];
      if d.discipline.Some? then OrElse(Some(d.discipline.value.code), "Unknown") else "Unknown"
  }

  /** The rank of the primary discipline, or null. It is null exactly when there are
      no disciplines or the first one is unranked (a rank of 0 counts as none);
      otherwise it is the smallest truthy rank. */
  function GetPrimaryRank(a: Athlete): (rank: Option<int>)
    ensures rank.None? <==> !HasDisciplines(a) || !Ranked(a.disciplines.value[0])
    ensures rank.Some? ==> rank.value != 0
    ensures rank.Some? ==>
              var ds := a.disciplines.value;
              (exists j :: 0 <= j < |ds| && Ranked(ds[j]) && Rank(ds[j]) == rank.value) &&
              (forall j :: 0 <= j < |ds| && Ranked(ds[j]) ==> rank.value <= Rank(ds[j]))
  {
    if !HasDisciplines(a) then None
    else
      var ds := a.disciplines.value;
      var d := ds[PrimaryIndex(ds)];
      if Ranked(d) then Some(Rank(d)) else None
  }

  /** Text of the rank cell: `#n` for a rank, `'N/A'` otherwise. */
  function RankCell(a: Athlete): (text: string)
    ensures GetPrimaryRank(a).None? <==> text == "N/A"
    ensures GetPrimaryRank(a).Some? ==> text == "#" + IntToString(GetPrimaryRank(a).value)
  {
    var rank := GetPrimaryRank(a);
    if rank.Some? && rank.value != 0 then
      var text := "#" + IntToString(rank.value);
      assert text[0] == '#';
      text
    else "N/A"
  }

  /** A first discipline ranked 0 hides every later rank. */
  lemma ZeroRankFirstShowsNoRank(a: Athlete, d: Discipline, later: seq<AthleteDiscipline>)
    requires a.disciplines == Some([AthleteDiscipline(Some(0), Some(d))] + later)
    ensures GetPrimaryRank(a).None? && RankCell(a) == "N/A"
    ensures GetPrimaryDiscipline(a) == OrElse(Some(d.code), "Unknown")
  {
  }

  // ---------------------------------------------------------------------------
  // Sport type

  /** The first discipline's sport name when the athlete has disciplines, else the
      team's sport name when it has a team; `'Unknown'` when that name is missing. */
  function GetSportType(a: Athlete): (sport: string)
    ensures HasDisciplines(a) ==>
              var d := a.disciplines.value[0];
              sport == SportNameOr(if d.discipline.Some? then d.discipline.value.sport else None, "Unknown")
    ensures !HasDisciplines(a) && a.team.Some? ==> sport == SportNameOr(a.team.value.sport, "Unknown")
    ensures !HasDisciplines(a) && a.team.None? ==> sport == "Unknown"
    ensures sport != ""
  {
    if HasDisciplines(a) then
      var d := a.disciplines.value[0];
      SportNameOr(if d.discipline.Some? then d.discipline.value.sport else None, "Unknown")
    else if a.team.Some? then SportNameOr(a.team.value.sport, "Unknown")
    else "Unknown"
  }
}
