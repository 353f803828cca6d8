/** The athletes table's row action: the form it opens the edit dialog with. */
module AthleteCellAction {
  import opened Common
  import opened Entities
  import opened AthleteColumns
  import opened AthleteDialog

  /** The first discipline's sport, when there is a first discipline with one. */
  function FirstDisciplineSport(a: Athlete): Option<Sport>
  {
    if a.disciplines.Some? && a.disciplines.value != [] && a.disciplines.value[0].discipline.Some?
    then a.disciplines.value[0].discipline.value.sport
    else None
  }

  function TeamSport(a: Athlete): Option<Sport>
  {
    if a.team.Some? then a.team.value.sport else None
  }

  predicate Named(s: Option<Sport>)
  {
    s.Some? && s.value.name != ""
  }

  /** The sport the edit form starts with: the team's sport name, else the first
      discipline's sport name, else `'ATHLETICS'`. */
  function DeriveSportType(a: Athlete): (sport: string)
    ensures Named(TeamSport(a)) ==> sport == TeamSport(a).value.name
    ensures !Named(TeamSport(a)) && Named(FirstDisciplineSport(a)) ==> sport == FirstDisciplineSport(a).value.name
    ensures !Named(TeamSport(a)) && !Named(FirstDisciplineSport(a)) ==> sport == "ATHLETICS"
  {
    SportNameOr(TeamSport(a), SportNameOr(FirstDisciplineSport(a), "ATHLETICS"))
  }

  /** One discipline of the record as a form entry: `{code: discipline?.code || '', currentRank}`. */
  function ToEntry(d: AthleteDiscipline): (e: DisciplineEntry)
    ensures e.currentRank == d.currentRank
    ensures e.code == if d.discipline.Some? then d.discipline.value.code else ""
  {
    DisciplineEntry(if d.discipline.Some? then d.discipline.value.code else "", d.currentRank)
  }

  /** The form the edit dialog opens with for a table row. */
  function EditingAthlete(a: Athlete): (f: AthleteFormData)
    ensures f.athleteId == Some(a.athleteId) && f.code == a.code
    ensures f.firstName == a.firstName && f.lastName == a.lastName && f.dateOfBirth == a.dateOfBirth
    ensures f.nationality == a.nationality && f.gender == a.gender
    ensures f.height == a.height && f.weight == a.weight && f.bio == a.bio
    ensures f.isActive == Some(a.isActive) && f.teamCode == a.teamCode
    ensures f.sportType == DeriveSportType(a)
    ensures f.positionCode == if a.position.Some? then Some(a.position.value.code) else None
    ensures a.disciplines.None? <==> f.disciplines.None?
    ensures a.disciplines.Some? ==>
              |f.disciplines.value| == |a.disciplines.value| &&
              forall i :: 0 <= i < |a.disciplines.value| ==>
                f.disciplines.value[i] == ToEntry(a.disciplines.value[i])
  {
    AthleteFormData(
      Some(a.athleteId), a.code, a.firstName, a.lastName, a.dateOfBirth,
      a.nationality, a.gender, a.height, a.weight, a.bio, Some(a.isActive),
      DeriveSportType(a), a.teamCode,
      if a.position.Some? then Some(a.position.value.code) else None,
      if a.disciplines.Some?
      then Some(seq(|a.disciplines.value|, i requires 0 <= i < |a.disciplines.value| => ToEntry(a.disciplines.value[i])))
      else None)
  }

  /** The table's sport column and the edit form disagree when an athlete has both a
      team sport and a first discipline with another sport: the table shows the
      discipline's sport, the edit form the team's. */
  lemma SportPrecedenceDiffers(a: Athlete, football: Sport, athletics: Sport, d: Discipline)
    requires football.name == "FOOTBALL" && athletics.name == "ATHLETICS"
    requires d.sport == Some(athletics)
    requires a.team.Some? && a.team.value.sport == Some(football)
    requires a.disciplines == Some([AthleteDiscipline(Some(1), Some(d))])
    ensures GetSportType(a) == "ATHLETICS"
    ensures DeriveSportType(a) == "FOOTBALL"
  {
  }

  /** Outside that case the two agree on every athlete that has a named sport. */
  lemma SportPrecedenceAgrees(a: Athlete)
    requires a.disciplines.Some? && a.disciplines.value != [] ==> a.team.None? || !Named(TeamSport(a))
    requires Named(TeamSport(a)) || Named(FirstDisciplineSport(a))
    ensures GetSportType(a) == DeriveSportType(a)
  {
  }

  /** Editing a row and saving it unchanged sends the row's own fields, with
      nationality `'Nigeria'` in place of an empty one and bio `''` in place of none. */
  lemma EditThenSaveKeepsFields(a: Athlete)
    ensures var b := BasePayload(InitForm(Some(EditingAthlete(a))));
            b.code == a.code && b.firstName == a.firstName && b.lastName == a.lastName &&
            b.dateOfBirth == a.dateOfBirth && b.height == a.height && b.weight == a.weight &&
            b.isActive == a.isActive && b.bio == OrElse(a.bio, "") &&
            b.nationality == (if a.nationality != "" then a.nationality else "Nigeria") &&
            b.gender == (if a.gender != "" then a.gender else "MALE") &&
            b.sportType == DeriveSportType(a)
  {
  }
}
