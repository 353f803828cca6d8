/** The records the dashboard receives from its backend, as far as the modelled code
    reads them. Fields the code treats as possibly missing are `Option`s. */
module Entities {
  import opened Common

  datatype Sport = Sport(name: string, isTeamSport: bool)

  datatype Discipline = Discipline(code: string, name: string, sport: Option<Sport>)

  /** One of an athlete's disciplines, with the athlete's current rank in it. */
  datatype AthleteDiscipline = AthleteDiscipline(currentRank: Option<int>, discipline: Option<Discipline>)

  datatype Team = Team(code: string, name: string, sport: Option<Sport>)

  datatype Position = Position(code: string, name: string)

  /** An athlete as the backend returns it. `createdAtLegacy` is the older
      `created_at` spelling that the registration chart still accepts. */
  datatype Athlete = Athlete(
    athleteId: int,
    code: string,
    firstName: string,
    lastName: string,
    dateOfBirth: string,
    nationality: string,
    gender: string,
    height: int,
    weight: int,
    bio: Option<string>,
    isActive: bool,
    teamCode: Option<string>,
    createdAt: Option<string>,
    createdAtLegacy: Option<string>,
    avatarUrl: Option<string>,
    team: Option<Team>,
    position: Option<Position>,
    disciplines: Option<seq<AthleteDiscipline>>)

  /** The body of a list response: `total` when the server sent a number, and
      `data`, which the callers check with `Array.isArray` or replace with `[]`. */
  datatype AthletePage = AthletePage(total: Option<int>, data: MaybeArray<Athlete>)

  /** `res?.total ?? (Array.isArray(res?.data) ? res.data.length : 0)`. */
  function TotalOrLength(res: AthletePage): (n: int)
    ensures res.total.Some? ==> n == res.total.value
    ensures res.total.None? && res.data.IsArray? ==> n == |res.data.items|
    ensures res.total.None? && res.data.NotArray? ==> n == 0
  {
    res.total.GetOr(|ArrayOrEmpty(res.data)|)
  }

  /** `??` keeps a reported total of 0 even when the page holds records. */
  lemma TotalZeroIsKept(items: seq<Athlete>)
    ensures TotalOrLength(AthletePage(Some(0), IsArray(items))) == 0
  {
  }

  /** A sport's name, or `fallback` when the sport or its name is missing:
      `sport?.name || fallback`. */
  function SportNameOr(sport: Option<Sport>, fallback: string): (r: string)
    ensures sport.Some? && sport.value.name != "" ==> r == sport.value.name
    ensures !(sport.Some? && sport.value.name != "") ==> r == fallback
  {
    if sport.Some? && sport.value.name != "" then sport.value.name else fallback
  }

  /** An event as the backend returns it. */
  datatype EventItem = EventItem(
    eventId: int,
    name: string,
    code: string,
    year: int,
    seasonId: int,
    gamedayId: int,
    venueId: Option<int>,
    gender: Option<string>,
    startDate: string,
    endDate: Option<string>,
    location: Option<string>,
    description: Option<string>,
    status: string,
    sport: Option<Sport>)

  /** The optional numeric fields of a performance, from the discipline id to the
      boxing statistics; `Placing` is the `position` field. */
  datatype Field =
    | DisciplineId | Placing | Points | Time | Distance | Height
    | MinutesPlayed | Assists | GoalsScored | GoalsConceded | YellowCards | RedCards | Saves
    | TwoPoints | ThreePoints | FreeThrows | FieldGoals | Rebounds | Steals | Blocks | Turnovers
    | Wins | Losses | Pins | TechnicalFalls | Decisions
    | Rounds | Knockouts | Knockdowns | PunchesLanded | PunchesThrown

  /** The athlete, event and discipline a performance row embeds. */
  datatype AthleteSummary = AthleteSummary(firstName: Option<string>, lastName: Option<string>, code: Option<string>)
  datatype EventSummary = EventSummary(name: Option<string>, sport: Option<Sport>)
  datatype DisciplineSummary = DisciplineSummary(name: Option<string>)

  /** A performance as the backend returns it; `stats` holds the optional numeric
      fields that are present. */
  datatype PerformanceRecord = PerformanceRecord(
    performanceId: int,
    athleteId: int,
    eventId: int,
    date: string,
    createdAt: string,
    notes: Option<string>,
    stats: map<Field, int>,
    isPersonalBest: bool,
    isSeasonBest: bool,
    athlete: Option<AthleteSummary>,
    event: Option<EventSummary>,
    discipline: Option<DisciplineSummary>)
}
